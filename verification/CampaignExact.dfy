/**
 * Exactly which evidence a campaign accepts, and what it spends, stated on the events of its roots
 * (eval/trust-spine-release-gate-cli.ts).
 */
module CampaignExact {
  import opened Seqs
  import opened Tape
  import opened TapeRecords
  import opened Campaign
  import opened CampaignClaims
  import opened CampaignCount
  import G = ReleaseGate
  import D = ReleaseDecision

  // ----------------------------------------------------------------- tape roots

  /** The root's figures are well formed, its tape is accepted, and the declared checkpoint is one of the tape's. */
  ghost predicate RootTaken(trust: Trust, e: RootEntry, root: TapeRoot, t: SignedTape) {
    && DigestForm(e.tapeRootHash) && e.throughEventCount > 0 && TapeTaken(trust, e.tape, t)
    && (exists k :: NamedAt(t.checkpoints, Declared(e.throughEventId, e.throughEventCount, e.tapeRootHash), k))
    && MapIs(t.events, e.throughEventId, root.verifiedEvents)
    && root.tapeId == e.tapeId && root.sourceRunId == e.tape.runId && root.tapeRootHash == e.tapeRootHash
  }

  lemma {:induction false} RootExactly(trust: Trust, e: RootEntry, root: TapeRoot)
    ensures RootAccepted(trust, e) && RootOf(trust, e) == root <==> exists t :: RootTaken(trust, e, root, t)
  {
    DigestMeaning(e.tapeRootHash);
    var d := Declared(e.throughEventId, e.throughEventCount, e.tapeRootHash);
    if RootAccepted(trust, e) && RootOf(trust, e) == root {
      TapeExactly(trust, e.tape, Verified(trust, e.tape));
      ResolvesExactly(trust, e.tape, d, root.verifiedEvents);
      assert RootTaken(trust, e, root, Verified(trust, e.tape));
    }
    if t :| RootTaken(trust, e, root, t) {
      TapeExactly(trust, e.tape, t);
      ResolvesExactly(trust, e.tape, d, root.verifiedEvents);
      assert root == TapeRoot(root.tapeId, root.sourceRunId, root.tapeRootHash, root.verifiedEvents);
    }
  }

  /** No two roots have one tape id or one source run. */
  ghost predicate RootsApart(roots: seq<TapeRoot>) {
    forall i, j :: 0 <= i < j < |roots| ==>
      roots[i].tapeId != roots[j].tapeId && roots[i].sourceRunId != roots[j].sourceRunId
  }

  ghost predicate SomeRootTaken(trust: Trust, e: RootEntry, root: TapeRoot) { exists t :: RootTaken(trust, e, root, t) }

  ghost predicate RootsTaken(trust: Trust, entries: seq<RootEntry>, roots: seq<TapeRoot>) {
    && |roots| == |entries| && RootsApart(roots)
    && forall i :: 0 <= i < |roots| ==> SomeRootTaken(trust, entries[i], roots[i])
  }

  lemma {:induction false} RootsOfInit(trust: Trust, entries: seq<RootEntry>)
    requires EachAccepted(trust, entries) && entries != []
    ensures EachAccepted(trust, entries[..|entries| - 1])
    ensures RootsOf(trust, entries[..|entries| - 1]) <= RootsOf(trust, entries)
  {
    forall e | e in entries[..|entries| - 1] ensures RootAccepted(trust, e) { assert e in entries; }
  }

  lemma {:induction false} RootsOfAt(trust: Trust, entries: seq<RootEntry>, i: nat)
    requires EachAccepted(trust, entries) && i < |entries|
    ensures RootAccepted(trust, entries[i]) && RootsOf(trust, entries)[i] == RootOf(trust, entries[i])
  {
    assert entries[i] in entries;
    if i < |entries| - 1 {
      RootsOfInit(trust, entries);
      RootsOfAt(trust, entries[..|entries| - 1], i);
      assert entries[..|entries| - 1][i] == entries[i];
    }
  }

  /** Roots are accepted exactly when each is taken and no tape id and no source run is named twice. */
  lemma {:induction false} RootsExactly(trust: Trust, entries: seq<RootEntry>, roots: seq<TapeRoot>)
    ensures RootsAccepted(trust, entries) && RootsOf(trust, entries) == roots <==> RootsTaken(trust, entries, roots)
  {
    if RootsAccepted(trust, entries) && RootsOf(trust, entries) == roots {
      RootsRead(trust, entries);
    }
    if RootsTaken(trust, entries, roots) {
      RootsAccept(trust, entries, roots);
    }
  }

  lemma {:induction false} RootsRead(trust: Trust, entries: seq<RootEntry>)
    requires RootsAccepted(trust, entries)
    ensures RootsTaken(trust, entries, RootsOf(trust, entries))
  {
    var roots := RootsOf(trust, entries);
    forall i | 0 <= i < |roots| ensures SomeRootTaken(trust, entries[i], roots[i]) {
      RootsOfAt(trust, entries, i);
      RootExactly(trust, entries[i], roots[i]);
    }
    forall i, j | 0 <= i < j < |roots|
      ensures roots[i].tapeId != roots[j].tapeId && roots[i].sourceRunId != roots[j].sourceRunId
    {
      RootsOfAt(trust, entries, i);
      RootsOfAt(trust, entries, j);
      assert TapeIdOf(entries[i]) != TapeIdOf(entries[j]) && RunOf(entries[i]) != RunOf(entries[j]);
    }
  }

  lemma {:induction false} RootsAccept(trust: Trust, entries: seq<RootEntry>, roots: seq<TapeRoot>)
    requires RootsTaken(trust, entries, roots)
    ensures RootsAccepted(trust, entries) && RootsOf(trust, entries) == roots
  {
    forall i | 0 <= i < |roots|
      ensures RootAccepted(trust, entries[i]) && RootOf(trust, entries[i]) == roots[i]
      ensures TapeIdOf(entries[i]) == roots[i].tapeId && RunOf(entries[i]) == roots[i].sourceRunId
    {
      assert SomeRootTaken(trust, entries[i], roots[i]);
      RootExactly(trust, entries[i], roots[i]);
    }
    forall e | e in entries ensures RootAccepted(trust, e) { var i :| 0 <= i < |entries| && entries[i] == e; }
    forall i | 0 <= i < |roots| ensures RootsOf(trust, entries)[i] == roots[i] { RootsOfAt(trust, entries, i); }
  }

  // ------------------------------------------------------------ spending events

  /** No event spent before has the same run and id, once they are joined by a NUL. */
  ghost predicate Unspent(spent: seq<Spent>, p: Spent) {
    forall q :: q in spent ==> q.runId + "\0" + q.eventId != p.runId + "\0" + p.eventId
  }

  ghost predicate Adds(spent: seq<Spent>, p: Spent, more: seq<Spent>) { Unspent(spent, p) && more == spent + [p] }

  lemma {:induction false} SpendExactly(spent: seq<Spent>, root: TapeRoot, event: TapeEvent, more: seq<Spent>)
    ensures Spend(spent, root, event) == Some(more) <==>
            Adds(spent, Spent(root.sourceRunId, event.canonical.eventId), more)
  {
    var p := Spent(root.sourceRunId, event.canonical.eventId);
    if Identity(p) in Identities(spent) {
      var q :| q in spent && Identity(q) == Identity(p);
      assert !Unspent(spent, p);
    }
  }

  lemma {:induction false} NulSplits(a: string, b: string, x: string, y: string)
    requires '\0' !in a && '\0' !in b && a + "\0" + x == b + "\0" + y
    ensures a == b && x == y
  {
    var s := a + "\0" + x;
    assert s[|a|] == '\0' && s[|b|] == '\0';
    assert forall i :: 0 <= i < |a| ==> s[i] == a[i] && a[i] in a;
    assert forall i :: 0 <= i < |b| ==> s[i] == b[i] && b[i] in b;
    assert s[..|a|] == a && s[..|b|] == b && s[|a| + 1..] == x && s[|b| + 1..] == y;
  }

  /** When no run id holds a NUL, an event is unspent exactly when it is not among those spent. */
  lemma {:induction false} UnspentMeaning(spent: seq<Spent>, p: Spent)
    requires '\0' !in p.runId && forall q :: q in spent ==> '\0' !in q.runId
    ensures Unspent(spent, p) <==> p !in spent
  {
    if p !in spent {
      forall q | q in spent ensures q.runId + "\0" + q.eventId != p.runId + "\0" + p.eventId {
        if q.runId + "\0" + q.eventId == p.runId + "\0" + p.eventId {
          NulSplits(q.runId, p.runId, q.eventId, p.eventId);
        }
      }
    }
  }

  /** Exactly one root holds the source event, and it is spent. */
  ghost predicate SourceTaken(c: Context, spent: seq<Spent>, s: SourceRef, more: seq<Spent>) {
    exists k: nat :: OnlyHolder(c.roots, s, k) && Adds(spent, Spent(c.roots[k].sourceRunId, s.sourceEventId), more)
  }

  ghost predicate OnlyHolder(roots: seq<TapeRoot>, s: SourceRef, k: nat) {
    k < |roots| && forall j :: 0 <= j < |roots| ==> (HoldsSource(roots[j], s) <==> j == k)
  }

  lemma {:induction false} NoHolder(roots: seq<TapeRoot>, s: SourceRef)
    ensures RootsHolding(roots, s) == [] <==> forall j :: 0 <= j < |roots| ==> !HoldsSource(roots[j], s)
  {
    if roots != [] {
      var n := |roots| - 1;
      NoHolder(roots[..n], s);
      assert forall j :: 0 <= j < n ==> roots[..n][j] == roots[j];
    }
  }

  lemma {:induction false} OneHolder(roots: seq<TapeRoot>, s: SourceRef) returns (k: nat)
    requires |RootsHolding(roots, s)| == 1
    ensures OnlyHolder(roots, s, k) && RootsHolding(roots, s) == [roots[k]]
  {
    var n := |roots| - 1;
    assert forall j :: 0 <= j < n ==> roots[..n][j] == roots[j];
    if HoldsSource(roots[n], s) {
      k := n;
      NoHolder(roots[..n], s);
    } else {
      k := OneHolder(roots[..n], s);
    }
  }

  lemma {:induction false} HolderIs(roots: seq<TapeRoot>, s: SourceRef, k: nat)
    requires OnlyHolder(roots, s, k)
    ensures RootsHolding(roots, s) == [roots[k]]
  {
    var n := |roots| - 1;
    assert forall j :: 0 <= j < n ==> roots[..n][j] == roots[j];
    if k == n { NoHolder(roots[..n], s); } else { HolderIs(roots[..n], s, k); }
  }

  lemma {:induction false} SourceExactly(c: Context, spent: seq<Spent>, s: SourceRef, more: seq<Spent>)
    requires RootsSound(c.roots)
    ensures UseSource(c, spent, s) == Some(more) <==> SourceTaken(c, spent, s, more)
  {
    if UseSource(c, spent, s) == Some(more) {
      var k := OneHolder(c.roots, s);
      HolderSpends(c, spent, s, k, more);
    }
    if k: nat :| OnlyHolder(c.roots, s, k) && Adds(spent, Spent(c.roots[k].sourceRunId, s.sourceEventId), more) {
      HolderSpends(c, spent, s, k, more);
    }
  }

  lemma {:induction false} HolderSpends(c: Context, spent: seq<Spent>, s: SourceRef, k: nat, more: seq<Spent>)
    requires RootsSound(c.roots) && OnlyHolder(c.roots, s, k)
    ensures UseSource(c, spent, s) == Some(more) <==>
            Adds(spent, Spent(c.roots[k].sourceRunId, s.sourceEventId), more)
  {
    var root := c.roots[k];
    HolderIs(c.roots, s, k);
    assert root in c.roots && HoldsSource(root, s);
    SpendExactly(spent, root, root.verifiedEvents[s.sourceEventId], more);
  }

  // ----------------------------------------------------------------- claims

  /** Six different source events, names without a slash, trial 1, 2 or 3, and figures within their widths. */
  predicate TrialFormed(host: Host, x: TrialClaim) {
    && SixEvents(x.sources)
    && Named(host, x.taskId) && Named(host, x.provider) && Named(host, x.trustTier)
    && '/' !in x.provider && '/' !in x.trustTier && x.trial in [1, 2, 3]
    && Below(x.costUsdMicros, 0x20_0000_0000_0000) && Below(x.latencyMs, 0x20_0000_0000_0000)
    && Below(x.tokens, 0x20_0000_0000_0000) && Below(x.toolCalls, 0x1_0000_0000)
    && Below(x.candidateCount, 0x1_0000_0000) && Below(x.unauthorizedEffects, 0x1_0000_0000)
    && Below(x.duplicateEffects, 0x1_0000_0000) && Below(x.safetyViolations, 0x1_0000_0000)
  }

  predicate Named(host: Host, s: string) { |s| > 0 && host.isIdentifier(s) }

  predicate Below(n: int, bound: int) { 0 <= n < bound }

  predicate SixEvents(s: Sources) {
    Distinct([s.modelRequest.sourceEventId, s.candidate.sourceEventId, s.acceptance.sourceEventId,
              s.review.sourceEventId, s.recovery.sourceEventId, s.terminal.sourceEventId])
  }

  predicate ClaimFormed(host: Host, claim: Claim) {
    (claim.Trial? ==> TrialFormed(host, claim.claim)) && (claim.RequiredCheck? ==> Named(host, claim.name))
  }

  lemma {:induction false} CountDistinct<T>(s: seq<T>)
    ensures |ToSet(s)| <= |s| && (|ToSet(s)| == |s| ==> Distinct(s))
  {
    if s != [] {
      var n := |s| - 1;
      CountDistinct(s[..n]);
      assert s == s[..n] + [s[n]];
      assert ToSet(s) == ToSet(s[..n]) + {s[n]};
      if |ToSet(s)| == |s| {
        assert s[n] !in ToSet(s[..n]);
        forall i, j | 0 <= i < j < |s| ensures s[i] != s[j] {
          assert s[i] == s[..n][i] && s[i] in ToSet(s[..n]);
          if j < n { assert s[j] == s[..n][j]; }
        }
      }
    }
  }

  lemma {:induction false} SixExactly(s: Sources)
    ensures |SourceIds(s)| == 6 <==> SixEvents(s)
  {
    var ids := [s.modelRequest.sourceEventId, s.candidate.sourceEventId, s.acceptance.sourceEventId,
                s.review.sourceEventId, s.recovery.sourceEventId, s.terminal.sourceEventId];
    var list := SourceList(s);
    assert forall i :: 0 <= i < 6 ==> ids[i] == list[i].sourceEventId;
    forall x | x in ToSet(ids) ensures x in SourceIds(s) {
      var i :| 0 <= i < 6 && ids[i] == x;
      assert list[i] in list;
    }
    forall x | x in SourceIds(s) ensures x in ToSet(ids) {
      var r :| r in list && r.sourceEventId == x;
      var i :| 0 <= i < 6 && list[i] == r;
      assert ids[i] == x;
    }
    assert SourceIds(s) == ToSet(ids);
    CountDistinct(ids);
    if SixEvents(s) { DistinctCount(ids); }
  }

  lemma {:induction false} FormedExactly(host: Host, claim: Claim)
    ensures ValidClaim(host, claim) <==> ClaimFormed(host, claim)
  {
    if claim.Trial? { SixExactly(claim.claim.sources); }
  }

  /** The event is release evidence of this release, ref and policy, and states this well-formed claim. */
  ghost predicate Evidences(c: Context, e: CanonicalEvent, claim: Claim) {
    && e.kind == "release_evaluation_evidence_v1" && e.payload.EvidencePayload?
    && var v := e.payload.evidence;
       && v.schemaVersion == 1 && v.claim == claim && ClaimFormed(c.host, claim)
       && v.claimDigest == c.host.claimDigest(v) && v.releaseCommit == c.bindings.releaseCommit
       && v.releaseRef == c.bindings.releaseRef && v.policyDigest == c.bindings.policyDigest
  }

  lemma {:induction false} ReadExactly(c: Context, e: TapeEvent, claim: Claim)
    ensures ReadClaim(c, e) == Some(claim) <==> Evidences(c, e.canonical, claim)
  {
    if e.canonical.payload.EvidencePayload? { FormedExactly(c.host, e.canonical.payload.evidence.claim); }
  }

  /** The reference names a covered event that states the claim, and that event is spent. */
  ghost predicate RefTaken(c: Context, spent: seq<Spent>, r: EvidenceRef, claim: Claim, more: seq<Spent>) {
    exists root :: RefTakenFrom(c, spent, r, claim, more, root)
  }

  ghost predicate RefTakenFrom(
      c: Context, spent: seq<Spent>, r: EvidenceRef, claim: Claim, more: seq<Spent>, root: TapeRoot)
  {
    && Refers(c, r, root) && Evidences(c, root.verifiedEvents[r.eventId].canonical, claim)
    && Adds(spent, Spent(root.sourceRunId, r.eventId), more)
  }

  lemma {:induction false} RootForIs(roots: seq<TapeRoot>, root: TapeRoot)
    requires RootsApart(roots) && root in roots
    ensures RootFor(roots, root.tapeId) == Some(root)
  {
    var n := |roots| - 1;
    var i :| 0 <= i < |roots| && roots[i] == root;
    if i < n {
      assert roots[i].tapeId != roots[n].tapeId;
      assert forall j :: 0 <= j < n ==> roots[..n][j] == roots[j];
      assert roots[..n][i] == root;
      RootForIs(roots[..n], root);
    }
  }

  lemma {:induction false} RefFrom(
      c: Context, spent: seq<Spent>, r: EvidenceRef, claim: Claim, more: seq<Spent>, root: TapeRoot)
    requires RootsSound(c.roots) && RootFor(c.roots, r.tapeId) == Some(root)
    requires root in c.roots && root.tapeId == r.tapeId
    ensures UseClaim(c, spent, r) == Some(Used(claim, more)) <==> RefTakenFrom(c, spent, r, claim, more, root)
  {
    if r.tapeRootHash == root.tapeRootHash && Holds(root, r.eventId, r.canonicalEventHash) {
      var event := root.verifiedEvents[r.eventId];
      SpendExactly(spent, root, event, more);
      ReadExactly(c, event, claim);
    }
  }

  lemma {:induction false} RefExactly(c: Context, spent: seq<Spent>, r: EvidenceRef, claim: Claim, more: seq<Spent>)
    requires RootsSound(c.roots) && RootsApart(c.roots)
    ensures UseClaim(c, spent, r) == Some(Used(claim, more)) <==> RefTaken(c, spent, r, claim, more)
  {
    if RootFor(c.roots, r.tapeId).Some? {
      RootForMember(c.roots, r.tapeId);
      RefFrom(c, spent, r, claim, more, RootFor(c.roots, r.tapeId).value);
    }
    if root :| RefTakenFrom(c, spent, r, claim, more, root) {
      RootForIs(c.roots, root);
      RefFrom(c, spent, r, claim, more, root);
    }
  }

  // ----------------------------------------------------------- chains of steps

  /** The sources are spent one after another, through these stages. */
  ghost predicate SourceStages(c: Context, sources: seq<SourceRef>, stages: seq<seq<Spent>>) {
    && |stages| == |sources| + 1
    && forall i :: 0 <= i < |sources| ==> SourceTaken(c, stages[i], sources[i], stages[i + 1])
  }

  ghost predicate SourcesRun(c: Context, spent: seq<Spent>, sources: seq<SourceRef>, more: seq<Spent>) {
    exists stages :: SourceStages(c, sources, stages) && stages[0] == spent && stages[|sources|] == more
  }

  lemma {:induction false} SourceStagesMore(
      c: Context, sources: seq<SourceRef>, stages: seq<seq<Spent>>, more: seq<Spent>)
    requires sources != [] && SourceStages(c, sources[..|sources| - 1], stages)
    requires SourceTaken(c, stages[|sources| - 1], sources[|sources| - 1], more)
    ensures SourceStages(c, sources, stages + [more])
  {
    var n := |sources| - 1;
    forall i | 0 <= i < |sources| ensures SourceTaken(c, (stages + [more])[i], sources[i], (stages + [more])[i + 1]) {
      if i < n { assert SourceTaken(c, stages[i], sources[..n][i], stages[i + 1]); }
    }
  }

  lemma {:induction false} SourcesFound(c: Context, spent: seq<Spent>, sources: seq<SourceRef>)
    returns (stages: seq<seq<Spent>>)
    requires RootsSound(c.roots) && UseSources(c, spent, sources).Some?
    ensures SourceStages(c, sources, stages) && stages[0] == spent
    ensures stages[|sources|] == UseSources(c, spent, sources).value
  {
    stages := [spent];
    if sources != [] {
      var n := |sources| - 1;
      var before := SourcesFound(c, spent, sources[..n]);
      var more := UseSources(c, spent, sources).value;
      SourceExactly(c, before[n], sources[n], more);
      SourceStagesMore(c, sources, before, more);
      stages := before + [more];
    }
  }

  lemma {:induction false} SourcesIs(c: Context, sources: seq<SourceRef>, stages: seq<seq<Spent>>)
    requires RootsSound(c.roots) && SourceStages(c, sources, stages)
    ensures UseSources(c, stages[0], sources) == Some(stages[|sources|])
  {
    if sources != [] {
      var n := |sources| - 1;
      forall i | 0 <= i < n ensures SourceTaken(c, stages[..n + 1][i], sources[..n][i], stages[..n + 1][i + 1]) {
        assert SourceTaken(c, stages[i], sources[i], stages[i + 1]);
      }
      SourcesIs(c, sources[..n], stages[..n + 1]);
      assert SourceTaken(c, stages[n], sources[n], stages[n + 1]);
      SourceExactly(c, stages[n], sources[n], stages[n + 1]);
    }
  }

  lemma {:induction false} SourcesExactly(c: Context, spent: seq<Spent>, sources: seq<SourceRef>, more: seq<Spent>)
    requires RootsSound(c.roots)
    ensures UseSources(c, spent, sources) == Some(more) <==> SourcesRun(c, spent, sources, more)
  {
    if UseSources(c, spent, sources) == Some(more) { var stages := SourcesFound(c, spent, sources); }
    if stages :| SourceStages(c, sources, stages) && stages[0] == spent && stages[|sources|] == more {
      SourcesIs(c, sources, stages);
    }
  }

  // ------------------------------------------------------------------ one trial

  /** A governed claim of the policy's providers and tiers, its event and its six sources spent in order. */
  ghost predicate TrialTakenBy(
      c: Context, spent: seq<Spent>, r: EvidenceRef, x: G.Trial, more: seq<Spent>, claim: TrialClaim, mid: seq<Spent>)
  {
    && RefTaken(c, spent, r, Trial(claim), mid) && Carries(x, claim)
    && claim.provider in c.policy.expectedProviders && claim.trustTier in c.policy.expectedTrustTiers
    && SourcesRun(c, mid, [claim.sources.modelRequest, claim.sources.candidate, claim.sources.acceptance,
                           claim.sources.review, claim.sources.recovery, claim.sources.terminal], more)
  }

  ghost predicate TrialTaken(c: Context, spent: seq<Spent>, r: EvidenceRef, x: G.Trial, more: seq<Spent>) {
    exists claim, mid :: TrialTakenBy(c, spent, r, x, more, claim, mid)
  }

  lemma {:induction false} CarriesExactly(x: G.Trial, claim: TrialClaim)
    ensures Carries(x, claim) <==> x == TrialOf(claim) && claim.governed
  {
    if Carries(x, claim) {
      assert x == G.Trial(x.taskId, x.provider, x.trustTier, x.trial, x.governance, x.passed, x.costUsd, x.latencyMs,
                          x.tokens, x.toolCalls, x.candidateCount, x.reviewerDisagreed, x.falseApproval,
                          x.unauthorizedEffects, x.duplicateEffects, x.safetyViolations, x.recoveryCorrect,
                          x.illegitimateSuccess);
    }
  }

  lemma {:induction false} TrialFrom(
      c: Context, spent: seq<Spent>, r: EvidenceRef, x: G.Trial, more: seq<Spent>, claim: TrialClaim, mid: seq<Spent>)
    requires RootsSound(c.roots) && UseClaim(c, spent, r) == Some(Used(Trial(claim), mid))
    ensures UseTrial(c, spent, r) == Some(Used(x, more)) <==>
            && SourcesRun(c, mid, SourceList(claim.sources), more) && Carries(x, claim)
            && claim.provider in c.policy.expectedProviders && claim.trustTier in c.policy.expectedTrustTiers
  {
    SourcesExactly(c, mid, SourceList(claim.sources), more);
    CarriesExactly(x, claim);
  }

  /** One trial reference is accepted exactly so. */
  lemma {:induction false} TrialExactly(c: Context, spent: seq<Spent>, r: EvidenceRef, x: G.Trial, more: seq<Spent>)
    requires RootsSound(c.roots) && RootsApart(c.roots)
    ensures UseTrial(c, spent, r) == Some(Used(x, more)) <==> TrialTaken(c, spent, r, x, more)
  {
    if UseTrial(c, spent, r) == Some(Used(x, more)) {
      var used := UseClaim(c, spent, r).value;
      var claim := used.value.claim;
      assert used == Used(Trial(claim), used.spent);
      RefExactly(c, spent, r, Trial(claim), used.spent);
      TrialFrom(c, spent, r, x, more, claim, used.spent);
      assert TrialTakenBy(c, spent, r, x, more, claim, used.spent);
    }
    if claim, mid :| TrialTakenBy(c, spent, r, x, more, claim, mid) {
      RefExactly(c, spent, r, Trial(claim), mid);
      TrialFrom(c, spent, r, x, more, claim, mid);
    }
  }

  ghost predicate TrialStages(c: Context, refs: seq<EvidenceRef>, trials: seq<G.Trial>, stages: seq<seq<Spent>>) {
    && |stages| == |refs| + 1 && |trials| == |refs|
    && forall i :: 0 <= i < |refs| ==> TrialTaken(c, stages[i], refs[i], trials[i], stages[i + 1])
  }

  /** The trial references are accepted one after another, each spending its own events. */
  ghost predicate TrialsTaken(
      c: Context, spent: seq<Spent>, refs: seq<EvidenceRef>, trials: seq<G.Trial>, more: seq<Spent>)
  {
    exists stages :: TrialStages(c, refs, trials, stages) && stages[0] == spent && stages[|refs|] == more
  }

  lemma {:induction false} TrialStagesMore(
      c: Context, refs: seq<EvidenceRef>, trials: seq<G.Trial>, stages: seq<seq<Spent>>, x: G.Trial, more: seq<Spent>)
    requires refs != [] && TrialStages(c, refs[..|refs| - 1], trials, stages)
    requires TrialTaken(c, stages[|refs| - 1], refs[|refs| - 1], x, more)
    ensures TrialStages(c, refs, trials + [x], stages + [more])
  {
    var n := |refs| - 1;
    forall i | 0 <= i < |refs|
      ensures TrialTaken(c, (stages + [more])[i], refs[i], (trials + [x])[i], (stages + [more])[i + 1])
    {
      if i < n { assert TrialTaken(c, stages[i], refs[..n][i], trials[i], stages[i + 1]); }
    }
  }

  lemma {:induction false} TrialsFound(c: Context, spent: seq<Spent>, refs: seq<EvidenceRef>)
    returns (stages: seq<seq<Spent>>)
    requires RootsSound(c.roots) && RootsApart(c.roots) && UseTrials(c, spent, refs).Some?
    ensures TrialStages(c, refs, UseTrials(c, spent, refs).value.value, stages)
    ensures stages[0] == spent && stages[|refs|] == UseTrials(c, spent, refs).value.spent
  {
    stages := [spent];
    if refs != [] {
      var n := |refs| - 1;
      var before := TrialsFound(c, spent, refs[..n]);
      var u, v := UseTrials(c, spent, refs[..n]).value, UseTrials(c, spent, refs).value;
      TrialExactly(c, u.spent, refs[n], v.value[n], v.spent);
      TrialStagesMore(c, refs, u.value, before, v.value[n], v.spent);
      stages := before + [v.spent];
    }
  }

  lemma {:induction false} TrialsIs(
      c: Context, refs: seq<EvidenceRef>, trials: seq<G.Trial>, stages: seq<seq<Spent>>)
    requires RootsSound(c.roots) && RootsApart(c.roots) && TrialStages(c, refs, trials, stages)
    ensures UseTrials(c, stages[0], refs) == Some(Used(trials, stages[|refs|]))
  {
    if refs == [] {
      assert trials == [];
    } else {
      var n := |refs| - 1;
      forall i | 0 <= i < n
        ensures TrialTaken(c, stages[..n + 1][i], refs[..n][i], trials[..n][i], stages[..n + 1][i + 1])
      {
        assert TrialTaken(c, stages[i], refs[i], trials[i], stages[i + 1]);
      }
      TrialsIs(c, refs[..n], trials[..n], stages[..n + 1]);
      assert TrialTaken(c, stages[n], refs[n], trials[n], stages[n + 1]);
      TrialExactly(c, stages[n], refs[n], trials[n], stages[n + 1]);
      assert trials == trials[..n] + [trials[n]];
    }
  }

  /** Trials are derived exactly when each reference is accepted in turn; the result is what they spend and state. */
  lemma {:induction false} TrialsExactly(
      c: Context, spent: seq<Spent>, refs: seq<EvidenceRef>, trials: seq<G.Trial>, more: seq<Spent>)
    requires RootsSound(c.roots) && RootsApart(c.roots)
    ensures UseTrials(c, spent, refs) == Some(Used(trials, more)) <==> TrialsTaken(c, spent, refs, trials, more)
  {
    if UseTrials(c, spent, refs) == Some(Used(trials, more)) { var stages := TrialsFound(c, spent, refs); }
    if stages :| TrialStages(c, refs, trials, stages) && stages[0] == spent && stages[|refs|] == more {
      TrialsIs(c, refs, trials, stages);
    }
  }

  // ------------------------------------------------- branch, replay and checks

  ghost predicate BranchTaken(c: Context, spent: seq<Spent>, r: EvidenceRef, immutable: bool, more: seq<Spent>) {
    exists source, mid :: RefTaken(c, spent, r, TargetBranchImmutability(immutable, source), mid)
                          && SourceTaken(c, mid, source, more)
  }

  ghost predicate ReplayTaken(c: Context, spent: seq<Spent>, r: EvidenceRef, compatible: bool, more: seq<Spent>) {
    exists source, mid :: RefTaken(c, spent, r, BackwardReplayCompatibility(compatible, source), mid)
                          && SourceTaken(c, mid, source, more)
  }

  /** A required check of a policy name without an answer so far; its answer is whether it concluded in success. */
  ghost predicate CheckTakenBy(
      c: Context, before: Used<map<string, bool>>, r: EvidenceRef, after: Used<map<string, bool>>, name: string,
      conclusion: Conclusion, source: SourceRef, mid: seq<Spent>)
  {
    && RefTaken(c, before.spent, r, RequiredCheck(name, conclusion, source), mid)
    && SourceTaken(c, mid, source, after.spent)
    && name in c.policy.requiredCheckNames && name !in before.value
    && after.value == before.value[name := (conclusion == Success)]
  }

  ghost predicate CheckTaken(
      c: Context, before: Used<map<string, bool>>, r: EvidenceRef, after: Used<map<string, bool>>)
  {
    exists name, conclusion, source, mid :: CheckTakenBy(c, before, r, after, name, conclusion, source, mid)
  }

  lemma {:induction false} BranchExactly(
      c: Context, spent: seq<Spent>, r: EvidenceRef, immutable: bool, more: seq<Spent>)
    requires RootsSound(c.roots) && RootsApart(c.roots)
    ensures UseBranch(c, spent, r) == Some(Used(immutable, more)) <==> BranchTaken(c, spent, r, immutable, more)
  {
    if UseBranch(c, spent, r) == Some(Used(immutable, more)) {
      var used := UseClaim(c, spent, r).value;
      assert used == Used(TargetBranchImmutability(immutable, used.value.source), used.spent);
      RefExactly(c, spent, r, used.value, used.spent);
      SourceExactly(c, used.spent, used.value.source, more);
    }
    if source, mid :| RefTaken(c, spent, r, TargetBranchImmutability(immutable, source), mid)
                      && SourceTaken(c, mid, source, more) {
      RefExactly(c, spent, r, TargetBranchImmutability(immutable, source), mid);
      SourceExactly(c, mid, source, more);
    }
  }

  lemma {:induction false} ReplayExactly(
      c: Context, spent: seq<Spent>, r: EvidenceRef, compatible: bool, more: seq<Spent>)
    requires RootsSound(c.roots) && RootsApart(c.roots)
    ensures UseReplay(c, spent, r) == Some(Used(compatible, more)) <==> ReplayTaken(c, spent, r, compatible, more)
  {
    if UseReplay(c, spent, r) == Some(Used(compatible, more)) {
      var used := UseClaim(c, spent, r).value;
      assert used == Used(BackwardReplayCompatibility(compatible, used.value.source), used.spent);
      RefExactly(c, spent, r, used.value, used.spent);
      SourceExactly(c, used.spent, used.value.source, more);
    }
    if source, mid :| RefTaken(c, spent, r, BackwardReplayCompatibility(compatible, source), mid)
                      && SourceTaken(c, mid, source, more) {
      RefExactly(c, spent, r, BackwardReplayCompatibility(compatible, source), mid);
      SourceExactly(c, mid, source, more);
    }
  }

  lemma {:induction false} CheckExactly(
      c: Context, before: Used<map<string, bool>>, r: EvidenceRef, after: Used<map<string, bool>>)
    requires RootsSound(c.roots) && RootsApart(c.roots)
    ensures UseCheck(c, before, r) == Some(after) <==> CheckTaken(c, before, r, after)
  {
    if UseCheck(c, before, r) == Some(after) {
      var used := UseClaim(c, before.spent, r).value;
      var x := used.value;
      assert used == Used(RequiredCheck(x.name, x.conclusion, x.source), used.spent);
      RefExactly(c, before.spent, r, x, used.spent);
      SourceExactly(c, used.spent, x.source, after.spent);
      assert CheckTakenBy(c, before, r, after, x.name, x.conclusion, x.source, used.spent);
    }
    if name, conclusion, source, mid :| CheckTakenBy(c, before, r, after, name, conclusion, source, mid) {
      RefExactly(c, before.spent, r, RequiredCheck(name, conclusion, source), mid);
      SourceExactly(c, mid, source, after.spent);
      assert after == Used(after.value, after.spent);
    }
  }

  ghost predicate CheckStages(c: Context, refs: seq<EvidenceRef>, stages: seq<Used<map<string, bool>>>) {
    && |stages| == |refs| + 1
    && forall i :: 0 <= i < |refs| ==> CheckTaken(c, stages[i], refs[i], stages[i + 1])
  }

  ghost predicate ChecksTaken(
      c: Context, spent: seq<Spent>, refs: seq<EvidenceRef>, after: Used<map<string, bool>>)
  {
    exists stages :: CheckStages(c, refs, stages) && stages[0] == Used(map[], spent) && stages[|refs|] == after
  }

  lemma {:induction false} CheckStagesMore(
      c: Context, refs: seq<EvidenceRef>, stages: seq<Used<map<string, bool>>>, after: Used<map<string, bool>>)
    requires refs != [] && CheckStages(c, refs[..|refs| - 1], stages)
    requires CheckTaken(c, stages[|refs| - 1], refs[|refs| - 1], after)
    ensures CheckStages(c, refs, stages + [after])
  {
    var n := |refs| - 1;
    forall i | 0 <= i < |refs| ensures CheckTaken(c, (stages + [after])[i], refs[i], (stages + [after])[i + 1]) {
      if i < n { assert CheckTaken(c, stages[i], refs[..n][i], stages[i + 1]); }
    }
  }

  lemma {:induction false} ChecksFound(c: Context, spent: seq<Spent>, refs: seq<EvidenceRef>)
    returns (stages: seq<Used<map<string, bool>>>)
    requires RootsSound(c.roots) && RootsApart(c.roots) && UseChecks(c, spent, refs).Some?
    ensures CheckStages(c, refs, stages) && stages[0] == Used(map[], spent)
    ensures stages[|refs|] == UseChecks(c, spent, refs).value
  {
    stages := [Used(map[], spent)];
    if refs != [] {
      var n := |refs| - 1;
      var before := ChecksFound(c, spent, refs[..n]);
      var after := UseChecks(c, spent, refs).value;
      CheckExactly(c, before[n], refs[n], after);
      CheckStagesMore(c, refs, before, after);
      stages := before + [after];
    }
  }

  lemma {:induction false} ChecksIs(
      c: Context, spent: seq<Spent>, refs: seq<EvidenceRef>, stages: seq<Used<map<string, bool>>>)
    requires RootsSound(c.roots) && RootsApart(c.roots)
    requires CheckStages(c, refs, stages) && stages[0] == Used(map[], spent)
    ensures UseChecks(c, spent, refs) == Some(stages[|refs|])
  {
    if refs != [] {
      var n := |refs| - 1;
      forall i | 0 <= i < n ensures CheckTaken(c, stages[..n + 1][i], refs[..n][i], stages[..n + 1][i + 1]) {
        assert CheckTaken(c, stages[i], refs[i], stages[i + 1]);
      }
      ChecksIs(c, spent, refs[..n], stages[..n + 1]);
      assert CheckTaken(c, stages[n], refs[n], stages[n + 1]);
      CheckExactly(c, stages[n], refs[n], stages[n + 1]);
    }
  }

  lemma {:induction false} ChecksExactly(
      c: Context, spent: seq<Spent>, refs: seq<EvidenceRef>, after: Used<map<string, bool>>)
    requires RootsSound(c.roots) && RootsApart(c.roots)
    ensures UseChecks(c, spent, refs) == Some(after) <==> ChecksTaken(c, spent, refs, after)
  {
    if UseChecks(c, spent, refs) == Some(after) { var stages := ChecksFound(c, spent, refs); }
    if stages :| CheckStages(c, refs, stages) && stages[0] == Used(map[], spent) && stages[|refs|] == after {
      ChecksIs(c, spent, refs, stages);
    }
  }

  /** The names without a successful answer, in the policy's order and as often as it lists them. */
  lemma {:induction false} UnresolvedInOrder(a: seq<string>, b: seq<string>, byName: map<string, bool>)
    ensures Unresolved(a + b, byName) == Unresolved(a, byName) + Unresolved(b, byName)
    ensures |a| == 1 ==> Unresolved(a, byName) == if a[0] in byName && byName[a[0]] then [] else a
  {
    if |a| == 1 { assert a[..0] == [] && a == [a[0]]; }
    if b == [] {
      assert a + b == a;
    } else {
      var n := |b| - 1;
      UnresolvedInOrder(a, b[..n], byName);
      assert (a + b)[..|a| + n] == a + b[..n] && (a + b)[|a| + n] == b[n];
    }
  }

  // ---------------------------------------------------------- the whole evidence

  /** What a campaign derives from its references before it judges. */
  datatype Derived = Derived(
    trials: seq<G.Trial>, immutable: bool, compatible: bool, byName: map<string, bool>, spent: seq<Spent>)

  ghost predicate EvidenceStages(
      c: Context, b: Bundle, d: Derived, afterTrials: seq<Spent>, afterBranch: seq<Spent>, afterReplay: seq<Spent>)
  {
    && b.trials != [] && TrialsTaken(c, [], b.trials, d.trials, afterTrials)
    && BranchTaken(c, afterTrials, b.targetBranchImmutability, d.immutable, afterBranch)
    && ReplayTaken(c, afterBranch, b.backwardReplayCompatibility, d.compatible, afterReplay)
    && ChecksTaken(c, afterReplay, b.requiredChecks, Used(d.byName, d.spent))
  }

  ghost predicate EvidenceTaken(c: Context, b: Bundle, d: Derived) {
    exists x, y, z :: EvidenceStages(c, b, d, x, y, z)
  }

  /** The specification's own derivation, for comparison. */
  ghost predicate EvidenceUsed(c: Context, b: Bundle, d: Derived) {
    && b.trials != [] && UseTrials(c, [], b.trials).Some?
    && var trials := UseTrials(c, [], b.trials).value;
       && trials.value == d.trials
       && UseInvariants(c, trials.spent, b)
          == Some(Used(Invariants(d.immutable, d.compatible, Unresolved(c.policy.requiredCheckNames, d.byName)),
                       d.spent))
       && UsedChecks(c, trials.spent, b) == Some(Used(d.byName, d.spent))
  }

  ghost function UsedChecks(c: Context, spent: seq<Spent>, b: Bundle): Option<Used<map<string, bool>>> {
    var branch :- UseBranch(c, spent, b.targetBranchImmutability);
    var replay :- UseReplay(c, branch.spent, b.backwardReplayCompatibility);
    UseChecks(c, replay.spent, b.requiredChecks)
  }

  lemma {:induction false} EvidenceRead(c: Context, b: Bundle, d: Derived)
    requires RootsSound(c.roots) && RootsApart(c.roots) && EvidenceUsed(c, b, d)
    ensures EvidenceTaken(c, b, d)
  {
    var trials := UseTrials(c, [], b.trials).value;
    var branch := UseBranch(c, trials.spent, b.targetBranchImmutability).value;
    var replay := UseReplay(c, branch.spent, b.backwardReplayCompatibility).value;
    TrialsExactly(c, [], b.trials, trials.value, trials.spent);
    BranchExactly(c, trials.spent, b.targetBranchImmutability, branch.value, branch.spent);
    ReplayExactly(c, branch.spent, b.backwardReplayCompatibility, replay.value, replay.spent);
    ChecksExactly(c, replay.spent, b.requiredChecks, Used(d.byName, d.spent));
    assert EvidenceStages(c, b, d, trials.spent, branch.spent, replay.spent);
  }

  lemma {:induction false} EvidenceAccepted(c: Context, b: Bundle, d: Derived)
    requires RootsSound(c.roots) && RootsApart(c.roots) && EvidenceTaken(c, b, d)
    ensures EvidenceUsed(c, b, d)
  {
    var x, y, z :| EvidenceStages(c, b, d, x, y, z);
    TrialsExactly(c, [], b.trials, d.trials, x);
    BranchExactly(c, x, b.targetBranchImmutability, d.immutable, y);
    ReplayExactly(c, y, b.backwardReplayCompatibility, d.compatible, z);
    ChecksExactly(c, z, b.requiredChecks, Used(d.byName, d.spent));
  }

  /** The judgement is made on the evidence, exactly when the report exists and the policy's input is valid. */
  ghost predicate JudgedOn(c: Context, d: Derived, o: Outcome) {
    && o.trials == d.trials && o.spent == d.spent
    && o.input == D.GateInput(c.policy.expectedProviders, c.policy.expectedTrustTiers, c.policy.minimumTasksPerGroup,
                              d.immutable, d.compatible, Unresolved(c.policy.requiredCheckNames, d.byName), None,
                              c.policy.baselineByGroup, Some(c.policy.maxCapabilityRegression))
    && D.ValidInput(o.input) && G.ComputeReport(c.host.collate, d.trials) == Some(o.evaluation.report)
    && o.evaluation.blockers
       == D.Walk(o.evaluation.report, o.input,
                 D.Pairs(c.policy.expectedProviders, c.policy.expectedTrustTiers)).blockers
  }

  lemma {:induction false} JudgeUsed(c: Context, b: Bundle, d: Derived, o: Outcome)
    requires EvidenceUsed(c, b, d)
    ensures Judge(c, b) == Some(o) <==> JudgedOn(c, d, o)
  {
    assert o == Outcome(o.evaluation, o.input, o.trials, o.spent);
    assert o.evaluation == Evaluation(o.evaluation.blockers, o.evaluation.report);
  }

  lemma {:induction false} InvariantsParts(c: Context, spent: seq<Spent>, b: Bundle, u: Used<Invariants>)
    returns (checks: Used<map<string, bool>>)
    requires UseInvariants(c, spent, b) == Some(u)
    ensures UsedChecks(c, spent, b) == Some(checks) && u.spent == checks.spent
    ensures u.value.unresolved == Unresolved(c.policy.requiredCheckNames, checks.value)
  {
    checks := UsedChecks(c, spent, b).value;
  }

  lemma {:induction false} JudgeDerives(c: Context, b: Bundle) returns (d: Derived)
    requires Judge(c, b).Some?
    ensures EvidenceUsed(c, b, d)
  {
    var trials, u := JudgeParts(c, b);
    var checks := InvariantsParts(c, trials.spent, b, u);
    d := Derived(trials.value, u.value.immutable, u.value.compatible, checks.value, u.spent);
    assert u == Used(Invariants(u.value.immutable, u.value.compatible, u.value.unresolved), u.spent);
  }

  /**
   * A campaign is judged exactly when its references can be spent in order, each on an event that states what it is
   * used for, no event twice, the report exists and the input is valid; and the judgement is made on what they state.
   */
  lemma {:induction false} JudgedExactly(c: Context, b: Bundle, o: Outcome)
    requires RootsSound(c.roots) && RootsApart(c.roots)
    ensures Judge(c, b) == Some(o) <==> exists d :: EvidenceTaken(c, b, d) && JudgedOn(c, d, o)
  {
    if Judge(c, b) == Some(o) {
      var d := JudgeDerives(c, b);
      JudgeUsed(c, b, d, o);
      EvidenceRead(c, b, d);
    }
    if d :| EvidenceTaken(c, b, d) && JudgedOn(c, d, o) {
      EvidenceAccepted(c, b, d);
      JudgeUsed(c, b, d, o);
    }
  }

  /** The bundle is for this commit, ref and policy, and its roots are taken. */
  ghost predicate Asked(host: Host, trust: Trust, policy: Policy, release: Bindings, b: Bundle, roots: seq<TapeRoot>) {
    && b.releaseCommit == release.releaseCommit && b.releaseRef == release.releaseRef == policy.targetRef
    && b.policyDigest == release.policyDigest == host.policyDigest(policy)
    && b.tapeRoots != [] && RootsTaken(trust, b.tapeRoots, roots)
  }

  ghost predicate EvaluatedOn(
      host: Host, trust: Trust, policy: Policy, release: Bindings, b: Bundle, roots: seq<TapeRoot>, d: Derived,
      o: Outcome)
  {
    var c := Context(host, policy, release, roots);
    Asked(host, trust, policy, release, b, roots) && EvidenceTaken(c, b, d) && JudgedOn(c, d, o)
  }

  lemma {:induction false} RootsReady(trust: Trust, entries: seq<RootEntry>, roots: seq<TapeRoot>)
    ensures RootsAccepted(trust, entries) && RootsOf(trust, entries) == roots <==> RootsTaken(trust, entries, roots)
    ensures RootsTaken(trust, entries, roots) ==> RootsSound(roots) && RootsApart(roots)
  {
    RootsExactly(trust, entries, roots);
    if RootsAccepted(trust, entries) { RootsAreSound(trust, entries); }
  }

  lemma {:induction false} EvaluationRead(
      host: Host, trust: Trust, policy: Policy, release: Bindings, b: Bundle, o: Outcome)
    returns (roots: seq<TapeRoot>, d: Derived)
    requires Evaluate(host, trust, Some(policy), release, b) == Some(o)
    ensures EvaluatedOn(host, trust, policy, release, b, roots, d, o)
  {
    EvaluationBound(host, trust, policy, release, b);
    roots := RootsOf(trust, b.tapeRoots);
    RootsReady(trust, b.tapeRoots, roots);
    var c := Context(host, policy, release, roots);
    JudgedExactly(c, b, o);
    d :| EvidenceTaken(c, b, d) && JudgedOn(c, d, o);
  }

  lemma {:induction false} EvaluationMade(
      host: Host, trust: Trust, policy: Policy, release: Bindings, b: Bundle, roots: seq<TapeRoot>, d: Derived,
      o: Outcome)
    requires EvaluatedOn(host, trust, policy, release, b, roots, d, o)
    ensures Evaluate(host, trust, Some(policy), release, b) == Some(o)
  {
    RootsReady(trust, b.tapeRoots, roots);
    JudgedExactly(Context(host, policy, release, roots), b, o);
  }

  /** The whole evaluation, from the tape exports to the blockers, succeeds exactly so. */
  lemma {:induction false} EvaluatedExactly(
      host: Host, trust: Trust, policy: Policy, release: Bindings, b: Bundle, o: Outcome)
    ensures Evaluate(host, trust, Some(policy), release, b) == Some(o) <==>
            exists roots, d :: EvaluatedOn(host, trust, policy, release, b, roots, d, o)
  {
    if Evaluate(host, trust, Some(policy), release, b) == Some(o) {
      var roots, d := EvaluationRead(host, trust, policy, release, b, o);
    }
    if roots, d :| EvaluatedOn(host, trust, policy, release, b, roots, d, o) {
      EvaluationMade(host, trust, policy, release, b, roots, d, o);
    }
  }
}
