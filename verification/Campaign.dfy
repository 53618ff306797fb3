/**
 * A release campaign: its tape roots, and the evidence events its claims spend (eval/trust-spine-release-gate-cli.ts).
 */
module Campaign {
  import opened Seqs
  import opened Tape
  import G = ReleaseGate
  import D = ReleaseDecision

  // ------------------------------------------------------------------- data

  datatype Policy = Policy(
    expectedProviders: seq<string>,
    expectedTrustTiers: seq<string>,
    targetRef: string,
    minimumTasksPerGroup: int,
    maxCapabilityRegression: real,
    baselineByGroup: map<string, D.Baseline>,
    requiredCheckNames: seq<string>)

  datatype RootEntry = RootEntry(
    tapeId: string, tapeRootHash: string, throughEventId: string, throughEventCount: int, tape: TapeExport)

  datatype TapeRoot = TapeRoot(
    tapeId: string, sourceRunId: string, tapeRootHash: string, verifiedEvents: map<string, TapeEvent>)

  datatype EvidenceRef = EvidenceRef(tapeId: string, tapeRootHash: string, eventId: string, canonicalEventHash: string)

  datatype Bundle = Bundle(
    releaseCommit: string,
    releaseRef: string,
    policyDigest: string,
    tapeRoots: seq<RootEntry>,
    trials: seq<EvidenceRef>,
    targetBranchImmutability: EvidenceRef,
    backwardReplayCompatibility: EvidenceRef,
    requiredChecks: seq<EvidenceRef>)

  datatype Bindings = Bindings(releaseCommit: string, releaseRef: string, policyDigest: string)

  /** What the host computes: digests of typed bodies, and the shape of identifiers. */
  datatype Host = Host(
    policyDigest: Policy -> string,
    claimDigest: Evidence -> string,
    isIdentifier: string -> bool,
    collate: G.Collation)

  datatype Context = Context(host: Host, policy: Policy, bindings: Bindings, roots: seq<TapeRoot>)

  /** An event spent by the campaign: the run its tape records, and its id there. */
  datatype Spent = Spent(runId: string, eventId: string)

  datatype Used<T> = Used(value: T, spent: seq<Spent>)

  // --------------------------------------------------------------- tape roots

  function DeclaredBy(e: RootEntry): Declared { Declared(e.throughEventId, e.throughEventCount, e.tapeRootHash) }

  ghost predicate RootAccepted(trust: Trust, e: RootEntry) {
    && IsDigest(e.tapeRootHash) && e.throughEventCount >= 1
    && TapeAccepted(trust, e.tape) && Resolve(Verified(trust, e.tape), DeclaredBy(e)).Some?
  }

  ghost function RootOf(trust: Trust, e: RootEntry): TapeRoot
    requires RootAccepted(trust, e)
  {
    TapeRoot(e.tapeId, e.tape.runId, e.tapeRootHash, Resolve(Verified(trust, e.tape), DeclaredBy(e)).value)
  }

  ghost predicate EachAccepted(trust: Trust, entries: seq<RootEntry>) {
    forall e :: e in entries ==> RootAccepted(trust, e)
  }

  function TapeIdOf(e: RootEntry): string { e.tapeId }

  function RunOf(e: RootEntry): string { e.tape.runId }

  ghost predicate DistinctBy(key: RootEntry -> string, entries: seq<RootEntry>) {
    forall i, j :: 0 <= i < j < |entries| ==> key(entries[i]) != key(entries[j])
  }

  /** Every root is accepted, and no tape id and no source run is named twice. */
  ghost predicate RootsAccepted(trust: Trust, entries: seq<RootEntry>) {
    EachAccepted(trust, entries) && DistinctBy(TapeIdOf, entries) && DistinctBy(RunOf, entries)
  }

  ghost function RootsOf(trust: Trust, entries: seq<RootEntry>): (r: seq<TapeRoot>)
    requires EachAccepted(trust, entries)
    ensures |r| == |entries|
  {
    if entries == [] then []
    else
      var n := |entries| - 1;
      assert entries[n] in entries;
      RootsOf(trust, entries[..n]) + [RootOf(trust, entries[n])]
  }

  ghost function KeysOf(key: RootEntry -> string, entries: seq<RootEntry>): set<string> {
    set e | e in entries :: key(e)
  }

  lemma {:induction false} DistinctStep(key: RootEntry -> string, entries: seq<RootEntry>, e: RootEntry)
    requires DistinctBy(key, entries)
    ensures DistinctBy(key, entries + [e]) <==> key(e) !in KeysOf(key, entries)
  {
    var more := entries + [e];
    assert e in more;
    if key(e) in KeysOf(key, entries) {
      var d :| d in entries && key(d) == key(e);
      var i :| 0 <= i < |entries| && entries[i] == d;
      assert key(more[i]) == key(more[|entries|]);
    } else {
      forall i | 0 <= i < |entries| ensures key(entries[i]) != key(e) { assert entries[i] in entries; }
    }
  }

  lemma {:induction false} RootsStep(trust: Trust, entries: seq<RootEntry>, e: RootEntry)
    requires RootsAccepted(trust, entries)
    ensures RootsAccepted(trust, entries + [e]) <==>
            RootAccepted(trust, e) && TapeIdOf(e) !in KeysOf(TapeIdOf, entries) && RunOf(e) !in KeysOf(RunOf, entries)
    ensures RootsAccepted(trust, entries + [e]) ==>
              RootsOf(trust, entries + [e]) == RootsOf(trust, entries) + [RootOf(trust, e)]
  {
    DistinctStep(TapeIdOf, entries, e);
    DistinctStep(RunOf, entries, e);
    assert e in entries + [e];
    assert (entries + [e])[..|entries|] == entries;
  }

  /** One more root, unless it is not accepted or names a tape or run already named. */
  ghost function AddRoot(trust: Trust, roots: seq<TapeRoot>, e: RootEntry): Option<seq<TapeRoot>> {
    if RootAccepted(trust, e) && e.tapeId !in TapeIds(roots) && e.tape.runId !in Runs(roots)
    then Some(roots + [RootOf(trust, e)])
    else None
  }

  ghost function ReadRoots(trust: Trust, entries: seq<RootEntry>): Option<seq<TapeRoot>> {
    if entries == [] then Some([])
    else
      var n := |entries| - 1;
      var before :- ReadRoots(trust, entries[..n]);
      AddRoot(trust, before, entries[n])
  }

  ghost function TapeIds(roots: seq<TapeRoot>): set<string> { set r | r in roots :: r.tapeId }

  ghost function Runs(roots: seq<TapeRoot>): set<string> { set r | r in roots :: r.sourceRunId }

  lemma {:induction false} NamesAdd(roots: seq<TapeRoot>, r: TapeRoot)
    ensures TapeIds(roots + [r]) == TapeIds(roots) + {r.tapeId}
    ensures Runs(roots + [r]) == Runs(roots) + {r.sourceRunId}
  {
    assert r in roots + [r];
  }

  lemma {:induction false} KeysAdd(key: RootEntry -> string, entries: seq<RootEntry>, e: RootEntry)
    ensures KeysOf(key, entries + [e]) == KeysOf(key, entries) + {key(e)}
  {
    assert e in entries + [e];
  }

  lemma {:induction false} RootNames(trust: Trust, entries: seq<RootEntry>)
    requires EachAccepted(trust, entries)
    ensures TapeIds(RootsOf(trust, entries)) == KeysOf(TapeIdOf, entries)
    ensures Runs(RootsOf(trust, entries)) == KeysOf(RunOf, entries)
  {
    if entries != [] {
      var n := |entries| - 1;
      assert entries == entries[..n] + [entries[n]];
      KeysAdd(TapeIdOf, entries[..n], entries[n]);
      KeysAdd(RunOf, entries[..n], entries[n]);
      RootNames(trust, entries[..n]);
      NamesAdd(RootsOf(trust, entries[..n]), RootOf(trust, entries[n]));
    }
  }

  lemma {:induction false} AddRootMeaning(trust: Trust, entries: seq<RootEntry>, e: RootEntry)
    requires RootsAccepted(trust, entries)
    ensures AddRoot(trust, RootsOf(trust, entries), e).Some? <==> RootsAccepted(trust, entries + [e])
    ensures RootsAccepted(trust, entries + [e]) ==>
              AddRoot(trust, RootsOf(trust, entries), e).value == RootsOf(trust, entries + [e])
  {
    RootsStep(trust, entries, e);
    RootNames(trust, entries);
  }

  lemma {:induction false} RootsInit(trust: Trust, entries: seq<RootEntry>, n: nat)
    requires n <= |entries| && RootsAccepted(trust, entries)
    ensures RootsAccepted(trust, entries[..n])
  {
    forall e | e in entries[..n] ensures RootAccepted(trust, e) { assert e in entries; }
  }

  lemma {:induction false} ReadRootsMeaning(trust: Trust, entries: seq<RootEntry>)
    ensures ReadRoots(trust, entries).Some? <==> RootsAccepted(trust, entries)
    ensures RootsAccepted(trust, entries) ==> ReadRoots(trust, entries).value == RootsOf(trust, entries)
  {
    if entries != [] {
      var n := |entries| - 1;
      ReadRootsMeaning(trust, entries[..n]);
      if RootsAccepted(trust, entries[..n]) {
        AddRootMeaning(trust, entries[..n], entries[n]);
        assert entries == entries[..n] + [entries[n]];
      } else if RootsAccepted(trust, entries) {
        RootsInit(trust, entries, n);
      }
    }
  }

  lemma {:induction false} RootsFail(trust: Trust, entries: seq<RootEntry>, i: nat)
    requires i <= |entries| && ReadRoots(trust, entries[..i]).None?
    ensures ReadRoots(trust, entries).None?
  {
    if i < |entries| {
      assert entries[..|entries| - 1][..i] == entries[..i];
      RootsFail(trust, entries[..|entries| - 1], i);
    } else {
      assert entries[..i] == entries;
    }
  }

  method ParseTapeRoot(trust: Trust, e: RootEntry) returns (r: Option<TapeRoot>)
    ensures r.Some? <==> RootAccepted(trust, e)
    ensures r.Some? ==> r.value == RootOf(trust, e)
  {
    if !IsDigest(e.tapeRootHash) || e.throughEventCount < 1 {
      return None;
    }
    var tape :- VerifySignedTape(trust, e.tape);
    var events := Resolve(tape, DeclaredBy(e));
    if events.None? {
      return None;
    }
    return Some(TapeRoot(e.tapeId, tape.runId, e.tapeRootHash, events.value));
  }

  /** parseTapeRoots. */
  method ParseTapeRoots(trust: Trust, entries: seq<RootEntry>) returns (r: Option<seq<TapeRoot>>)
    ensures r.Some? <==> entries != [] && RootsAccepted(trust, entries)
    ensures r.Some? ==> r.value == RootsOf(trust, entries)
  {
    if |entries| == 0 {
      return None;
    }
    ReadRootsMeaning(trust, entries);
    r := ReadTapeRoots(trust, entries);
  }

  method ReadTapeRoots(trust: Trust, entries: seq<RootEntry>) returns (r: Option<seq<TapeRoot>>)
    ensures r == ReadRoots(trust, entries)
  {
    var roots: seq<TapeRoot> := [];
    var tapeIds: set<string>, runIds: set<string> := {}, {};
    for i := 0 to |entries|
      invariant ReadRoots(trust, entries[..i]) == Some(roots)
      invariant tapeIds == TapeIds(roots) && runIds == Runs(roots)
    {
      var e := entries[i];
      assert entries[..i + 1][..i] == entries[..i];
      var root := ParseTapeRoot(trust, e);
      if e.tapeId in tapeIds || root.None? || root.value.sourceRunId in runIds {
        RootsFail(trust, entries, i + 1);
        return None;
      }
      NamesAdd(roots, root.value);
      tapeIds := tapeIds + {e.tapeId};
      runIds := runIds + {root.value.sourceRunId};
      roots := roots + [root.value];
    }
    assert entries[..|entries|] == entries;
    return Some(roots);
  }

  // ----------------------------------------------------------- spending events

  function Identity(p: Spent): string { p.runId + "\0" + p.eventId }

  ghost function Identities(spent: seq<Spent>): set<string> { set p | p in spent :: Identity(p) }

  /** consumeEvidenceEvent. */
  ghost function Spend(spent: seq<Spent>, root: TapeRoot, event: TapeEvent): Option<seq<Spent>> {
    var p := Spent(root.sourceRunId, EventId(event));
    if Identity(p) in Identities(spent) then None else Some(spent + [p])
  }

  function RootFor(roots: seq<TapeRoot>, tapeId: string): Option<TapeRoot> {
    if roots == [] then None
    else if roots[|roots| - 1].tapeId == tapeId then Some(roots[|roots| - 1])
    else RootFor(roots[..|roots| - 1], tapeId)
  }

  predicate Holds(root: TapeRoot, eventId: string, hash: string) {
    eventId in root.verifiedEvents && root.verifiedEvents[eventId].canonicalEventHash == hash
  }

  /** useCampaignEvidenceRef. */
  ghost function UseRef(c: Context, spent: seq<Spent>, r: EvidenceRef): Option<Used<TapeEvent>> {
    var root :- RootFor(c.roots, r.tapeId);
    if r.tapeRootHash != root.tapeRootHash || !Holds(root, r.eventId, r.canonicalEventHash) then None
    else
      var event := root.verifiedEvents[r.eventId];
      var more :- Spend(spent, root, event);
      Some(Used(event, more))
  }

  function RootsHolding(roots: seq<TapeRoot>, s: SourceRef): seq<TapeRoot> {
    if roots == [] then []
    else
      var n := |roots| - 1;
      var rest := RootsHolding(roots[..n], s);
      if Holds(roots[n], s.sourceEventId, s.sourceCanonicalEventHash) then rest + [roots[n]] else rest
  }

  lemma {:induction false} RootsHoldingMembers(roots: seq<TapeRoot>, s: SourceRef, root: TapeRoot)
    ensures root in RootsHolding(roots, s) <==>
            root in roots && Holds(root, s.sourceEventId, s.sourceCanonicalEventHash)
  {
    if roots != [] {
      RootsHoldingMembers(roots[..|roots| - 1], s, root);
      assert roots == roots[..|roots| - 1] + [roots[|roots| - 1]];
    }
  }

  /** useReleaseEvaluationSource: exactly one root may hold the source event. */
  ghost function UseSource(c: Context, spent: seq<Spent>, s: SourceRef): Option<seq<Spent>> {
    var matches := RootsHolding(c.roots, s);
    if |matches| != 1 then None
    else
      RootsHoldingMembers(c.roots, s, matches[0]);
      Spend(spent, matches[0], matches[0].verifiedEvents[s.sourceEventId])
  }

  ghost function UseSources(c: Context, spent: seq<Spent>, sources: seq<SourceRef>): Option<seq<Spent>> {
    if sources == [] then Some(spent)
    else
      var n := |sources| - 1;
      var before :- UseSources(c, spent, sources[..n]);
      UseSource(c, before, sources[n])
  }

  // ------------------------------------------------------------ typed evidence

  function SourceList(s: Sources): (r: seq<SourceRef>)
    ensures |r| == 6
  {
    [s.modelRequest, s.candidate, s.acceptance, s.review, s.recovery, s.terminal]
  }

  function SourceIds(s: Sources): set<string> { set x | x in SourceList(s) :: x.sourceEventId }

  const MAX_SAFE_INTEGER := 9007199254740991
  const MAX_U32 := 0xffff_ffff

  predicate ValidTrialClaim(host: Host, x: TrialClaim) {
    && |SourceIds(x.sources)| == 6
    && host.isIdentifier(x.taskId) && x.taskId != ""
    && host.isIdentifier(x.provider) && x.provider != "" && '/' !in x.provider
    && host.isIdentifier(x.trustTier) && x.trustTier != "" && '/' !in x.trustTier
    && 1 <= x.trial <= 3
    && 0 <= x.costUsdMicros <= MAX_SAFE_INTEGER && 0 <= x.latencyMs <= MAX_SAFE_INTEGER
    && 0 <= x.tokens <= MAX_SAFE_INTEGER
    && 0 <= x.toolCalls <= MAX_U32 && 0 <= x.candidateCount <= MAX_U32
    && 0 <= x.unauthorizedEffects <= MAX_U32 && 0 <= x.duplicateEffects <= MAX_U32
    && 0 <= x.safetyViolations <= MAX_U32
  }

  predicate ValidClaim(host: Host, x: Claim) {
    match x
    case Trial(t) => ValidTrialClaim(host, t)
    case RequiredCheck(name, _, _) => host.isIdentifier(name) && name != ""
    case _ => true
  }

  /** readReleaseEvaluationEvidence. */
  function ReadClaim(c: Context, e: TapeEvent): Option<Claim> {
    if e.canonical.kind != "release_evaluation_evidence_v1" || !e.canonical.payload.EvidencePayload? then None
    else
      var v := e.canonical.payload.evidence;
      if && v.schemaVersion == 1 && ValidClaim(c.host, v.claim) && v.claimDigest == c.host.claimDigest(v)
         && v.releaseCommit == c.bindings.releaseCommit && v.releaseRef == c.bindings.releaseRef
         && v.policyDigest == c.bindings.policyDigest
      then Some(v.claim)
      else None
  }

  ghost function UseClaim(c: Context, spent: seq<Spent>, r: EvidenceRef): Option<Used<Claim>> {
    var used :- UseRef(c, spent, r);
    var claim :- ReadClaim(c, used.value);
    Some(Used(claim, used.spent))
  }

  // ------------------------------------------------------------------- trials

  function TrialOf(x: TrialClaim): G.Trial {
    G.Trial(x.taskId, x.provider, x.trustTier, x.trial, G.Governed, x.passed,
            x.costUsdMicros as real / 1000000.0, x.latencyMs as real, x.tokens as real, x.toolCalls as real,
            x.candidateCount as real, x.reviewerDisagreed, x.falseApproval, x.unauthorizedEffects as real,
            x.duplicateEffects as real, x.safetyViolations as real, x.recoveryCorrect, x.illegitimateSuccess)
  }

  predicate InPolicy(p: Policy, x: TrialClaim) {
    x.provider in p.expectedProviders && x.trustTier in p.expectedTrustTiers && x.governed
  }

  ghost function UseTrial(c: Context, spent: seq<Spent>, r: EvidenceRef): Option<Used<G.Trial>> {
    var used :- UseClaim(c, spent, r);
    if !used.value.Trial? then None
    else
      var claim := used.value.claim;
      var more :- UseSources(c, used.spent, SourceList(claim.sources));
      if InPolicy(c.policy, claim) then Some(Used(TrialOf(claim), more)) else None
  }

  ghost function UseTrials(c: Context, spent: seq<Spent>, refs: seq<EvidenceRef>): Option<Used<seq<G.Trial>>> {
    if refs == [] then Some(Used([], spent))
    else
      var n := |refs| - 1;
      var before :- UseTrials(c, spent, refs[..n]);
      var used :- UseTrial(c, before.spent, refs[n]);
      Some(Used(before.value + [used.value], used.spent))
  }

  // --------------------------------------------------------------- invariants

  ghost function UseBranch(c: Context, spent: seq<Spent>, r: EvidenceRef): Option<Used<bool>> {
    var used :- UseClaim(c, spent, r);
    if !used.value.TargetBranchImmutability? then None
    else
      var more :- UseSource(c, used.spent, used.value.source);
      Some(Used(used.value.immutable, more))
  }

  ghost function UseReplay(c: Context, spent: seq<Spent>, r: EvidenceRef): Option<Used<bool>> {
    var used :- UseClaim(c, spent, r);
    if !used.value.BackwardReplayCompatibility? then None
    else
      var more :- UseSource(c, used.spent, used.value.source);
      Some(Used(used.value.compatible, more))
  }

  ghost function UseCheck(
      c: Context, before: Used<map<string, bool>>, r: EvidenceRef): Option<Used<map<string, bool>>>
  {
    var used :- UseClaim(c, before.spent, r);
    if !used.value.RequiredCheck? then None
    else
      var claim := used.value;
      var more :- UseSource(c, used.spent, claim.source);
      if claim.name !in c.policy.requiredCheckNames || claim.name in before.value then None
      else Some(Used(before.value[claim.name := claim.conclusion.Success?], more))
  }

  ghost function UseChecks(c: Context, spent: seq<Spent>, refs: seq<EvidenceRef>): Option<Used<map<string, bool>>> {
    if refs == [] then Some(Used(map[], spent))
    else
      var n := |refs| - 1;
      var before :- UseChecks(c, spent, refs[..n]);
      UseCheck(c, before, refs[n])
  }

  /** The names whose check did not succeed, in policy order. */
  function Unresolved(names: seq<string>, byName: map<string, bool>): seq<string> {
    if names == [] then []
    else
      var n := |names| - 1;
      var rest := Unresolved(names[..n], byName);
      if names[n] in byName && byName[names[n]] then rest else rest + [names[n]]
  }

  datatype Invariants = Invariants(immutable: bool, compatible: bool, unresolved: seq<string>)

  ghost function UseInvariants(c: Context, spent: seq<Spent>, b: Bundle): Option<Used<Invariants>> {
    var branch :- UseBranch(c, spent, b.targetBranchImmutability);
    var replay :- UseReplay(c, branch.spent, b.backwardReplayCompatibility);
    var checks :- UseChecks(c, replay.spent, b.requiredChecks);
    Some(Used(Invariants(branch.value, replay.value, Unresolved(c.policy.requiredCheckNames, checks.value)),
              checks.spent))
  }

  // ---------------------------------------------- the verifier's consumed set

  /** The set of consumed identities, and (for specification only) the events behind them in order. */
  class Consumed {
    var identities: set<string>
    ghost var spent: seq<Spent>

    ghost predicate Valid()
      reads this
    {
      identities == Identities(spent)
    }

    constructor ()
      ensures Valid() && spent == []
    {
      identities, spent := {}, [];
    }

    method Consume(root: TapeRoot, event: TapeEvent) returns (ok: bool)
      requires Valid()
      modifies this
      ensures Valid()
      ensures ok <==> Spend(old(spent), root, event).Some?
      ensures ok ==> spent == Spend(old(spent), root, event).value
    {
      var p := Spent(root.sourceRunId, EventId(event));
      if Identity(p) in identities {
        return false;
      }
      assert Identities(spent + [p]) == Identities(spent) + {Identity(p)};
      identities := identities + {Identity(p)};
      spent := spent + [p];
      return true;
    }

    method UseCampaignEvidenceRef(c: Context, r: EvidenceRef) returns (event: Option<TapeEvent>)
      requires Valid()
      modifies this
      ensures Valid()
      ensures event.Some? <==> UseRef(c, old(spent), r).Some?
      ensures event.Some? ==> Used(event.value, spent) == UseRef(c, old(spent), r).value
    {
      var root := RootFor(c.roots, r.tapeId);
      if root.None? || r.tapeRootHash != root.value.tapeRootHash
         || !Holds(root.value, r.eventId, r.canonicalEventHash) {
        return None;
      }
      var found := root.value.verifiedEvents[r.eventId];
      var fresh' := Consume(root.value, found);
      return if fresh' then Some(found) else None;
    }

    method UseReleaseEvaluationSource(c: Context, s: SourceRef) returns (ok: bool)
      requires Valid()
      modifies this
      ensures Valid()
      ensures ok <==> UseSource(c, old(spent), s).Some?
      ensures ok ==> spent == UseSource(c, old(spent), s).value
    {
      var matches: seq<TapeRoot> := [];
      for i := 0 to |c.roots|
        invariant matches == RootsHolding(c.roots[..i], s)
        invariant Valid() && spent == old(spent)
      {
        if Holds(c.roots[i], s.sourceEventId, s.sourceCanonicalEventHash) {
          matches := matches + [c.roots[i]];
        }
        assert c.roots[..i + 1][..i] == c.roots[..i];
      }
      assert c.roots[..|c.roots|] == c.roots;
      if |matches| != 1 {
        return false;
      }
      RootsHoldingMembers(c.roots, s, matches[0]);
      ok := Consume(matches[0], matches[0].verifiedEvents[s.sourceEventId]);
    }

    method UseClaimEvent(c: Context, r: EvidenceRef) returns (claim: Option<Claim>)
      requires Valid()
      modifies this
      ensures Valid()
      ensures claim.Some? <==> UseClaim(c, old(spent), r).Some?
      ensures claim.Some? ==> Used(claim.value, spent) == UseClaim(c, old(spent), r).value
    {
      var event := UseCampaignEvidenceRef(c, r);
      return if event.None? then None else ReadClaim(c, event.value);
    }

    method UseAllSources(c: Context, sources: seq<SourceRef>) returns (ok: bool)
      requires Valid()
      modifies this
      ensures Valid()
      ensures ok <==> UseSources(c, old(spent), sources).Some?
      ensures ok ==> spent == UseSources(c, old(spent), sources).value
    {
      for i := 0 to |sources|
        invariant Valid() && UseSources(c, old(spent), sources[..i]) == Some(spent)
      {
        assert sources[..i + 1][..i] == sources[..i];
        var used := UseReleaseEvaluationSource(c, sources[i]);
        if !used {
          SourcesFail(c, old(spent), sources, i + 1);
          return false;
        }
      }
      assert sources[..|sources|] == sources;
      return true;
    }

    method DeriveTrial(c: Context, r: EvidenceRef) returns (x: Option<G.Trial>)
      requires Valid()
      modifies this
      ensures Valid()
      ensures x.Some? <==> UseTrial(c, old(spent), r).Some?
      ensures x.Some? ==> Used(x.value, spent) == UseTrial(c, old(spent), r).value
    {
      var claim := UseClaimEvent(c, r);
      if claim.None? || !claim.value.Trial? {
        return None;
      }
      var ok := UseAllSources(c, SourceList(claim.value.claim.sources));
      return if ok && InPolicy(c.policy, claim.value.claim) then Some(TrialOf(claim.value.claim)) else None;
    }

    /** deriveTrials. */
    method DeriveTrials(c: Context, refs: seq<EvidenceRef>) returns (trials: Option<seq<G.Trial>>)
      requires Valid()
      modifies this
      ensures Valid()
      ensures trials.Some? <==> refs != [] && UseTrials(c, old(spent), refs).Some?
      ensures trials.Some? ==> Used(trials.value, spent) == UseTrials(c, old(spent), refs).value
    {
      if |refs| == 0 {
        return None;
      }
      var all: seq<G.Trial> := [];
      for i := 0 to |refs|
        invariant Valid() && UseTrials(c, old(spent), refs[..i]) == Some(Used(all, spent))
      {
        assert refs[..i + 1][..i] == refs[..i];
        var x := DeriveTrial(c, refs[i]);
        if x.None? {
          TrialsFail(c, old(spent), refs, i + 1);
          return None;
        }
        all := all + [x.value];
      }
      assert refs[..|refs|] == refs;
      return Some(all);
    }

    method DeriveChecks(c: Context, refs: seq<EvidenceRef>) returns (r: Option<map<string, bool>>)
      requires Valid()
      modifies this
      ensures Valid()
      ensures r.Some? <==> UseChecks(c, old(spent), refs).Some?
      ensures r.Some? ==> Used(r.value, spent) == UseChecks(c, old(spent), refs).value
    {
      var byName: map<string, bool> := map[];
      for i := 0 to |refs|
        invariant Valid() && UseChecks(c, old(spent), refs[..i]) == Some(Used(byName, spent))
      {
        assert refs[..i + 1][..i] == refs[..i];
        var next := DeriveCheck(c, byName, refs[i]);
        if next.None? {
          ChecksFail(c, old(spent), refs, i + 1);
          return None;
        }
        byName := next.value;
      }
      assert refs[..|refs|] == refs;
      return Some(byName);
    }

    method DeriveCheck(c: Context, byName: map<string, bool>, r: EvidenceRef) returns (next: Option<map<string, bool>>)
      requires Valid()
      modifies this
      ensures Valid()
      ensures next.Some? <==> UseCheck(c, Used(byName, old(spent)), r).Some?
      ensures next.Some? ==> Used(next.value, spent) == UseCheck(c, Used(byName, old(spent)), r).value
    {
      var claim := UseClaimEvent(c, r);
      if claim.None? || !claim.value.RequiredCheck? {
        return None;
      }
      var ok := UseReleaseEvaluationSource(c, claim.value.source);
      var name := claim.value.name;
      if !ok || name !in c.policy.requiredCheckNames || name in byName {
        return None;
      }
      return Some(byName[name := claim.value.conclusion.Success?]);
    }

    method DeriveFlag(c: Context, r: EvidenceRef, branch: bool) returns (flag: Option<bool>)
      requires Valid()
      modifies this
      ensures Valid()
      ensures var used := if branch then UseBranch(c, old(spent), r) else UseReplay(c, old(spent), r);
              && (flag.Some? <==> used.Some?)
              && (flag.Some? ==> Used(flag.value, spent) == used.value)
    {
      var claim := UseClaimEvent(c, r);
      if claim.None? {
        return None;
      }
      if branch && claim.value.TargetBranchImmutability? {
        var ok := UseReleaseEvaluationSource(c, claim.value.source);
        return if ok then Some(claim.value.immutable) else None;
      }
      if !branch && claim.value.BackwardReplayCompatibility? {
        var ok := UseReleaseEvaluationSource(c, claim.value.source);
        return if ok then Some(claim.value.compatible) else None;
      }
      return None;
    }

    /** deriveInvariants. */
    method DeriveInvariants(c: Context, b: Bundle) returns (r: Option<Invariants>)
      requires Valid()
      modifies this
      ensures Valid()
      ensures r.Some? <==> UseInvariants(c, old(spent), b).Some?
      ensures r.Some? ==> Used(r.value, spent) == UseInvariants(c, old(spent), b).value
    {
      var branch :- DeriveFlag(c, b.targetBranchImmutability, true);
      var replay :- DeriveFlag(c, b.backwardReplayCompatibility, false);
      var checks :- DeriveChecks(c, b.requiredChecks);
      return Some(Invariants(branch, replay, Unresolved(c.policy.requiredCheckNames, checks)));
    }
  }

  lemma {:induction false} SourcesFail(c: Context, spent: seq<Spent>, sources: seq<SourceRef>, i: nat)
    requires i <= |sources| && UseSources(c, spent, sources[..i]).None?
    ensures UseSources(c, spent, sources).None?
  {
    if i < |sources| {
      assert sources[..|sources| - 1][..i] == sources[..i];
      SourcesFail(c, spent, sources[..|sources| - 1], i);
    } else {
      assert sources[..i] == sources;
    }
  }

  lemma {:induction false} TrialsFail(c: Context, spent: seq<Spent>, refs: seq<EvidenceRef>, i: nat)
    requires i <= |refs| && UseTrials(c, spent, refs[..i]).None?
    ensures UseTrials(c, spent, refs).None?
  {
    if i < |refs| {
      assert refs[..|refs| - 1][..i] == refs[..i];
      TrialsFail(c, spent, refs[..|refs| - 1], i);
    } else {
      assert refs[..i] == refs;
    }
  }

  lemma {:induction false} ChecksFail(c: Context, spent: seq<Spent>, refs: seq<EvidenceRef>, i: nat)
    requires i <= |refs| && UseChecks(c, spent, refs[..i]).None?
    ensures UseChecks(c, spent, refs).None?
  {
    if i < |refs| {
      assert refs[..|refs| - 1][..i] == refs[..i];
      ChecksFail(c, spent, refs[..|refs| - 1], i);
    } else {
      assert refs[..i] == refs;
    }
  }

  // ------------------------------------------------------------ the campaign

  datatype Evaluation = Evaluation(blockers: seq<D.Blocker>, report: G.Report)

  datatype Outcome = Outcome(evaluation: Evaluation, input: D.GateInput, trials: seq<G.Trial>, spent: seq<Spent>)

  function GateInputOf(p: Policy, v: Invariants): D.GateInput {
    D.GateInput(p.expectedProviders, p.expectedTrustTiers, p.minimumTasksPerGroup, v.immutable, v.compatible,
                v.unresolved, None, p.baselineByGroup, Some(p.maxCapabilityRegression))
  }

  predicate Requested(host: Host, policy: Policy, release: Bindings, b: Bundle) {
    && release.releaseRef == policy.targetRef && release.policyDigest == host.policyDigest(policy)
    && b.releaseCommit == release.releaseCommit && b.releaseRef == release.releaseRef
    && b.policyDigest == release.policyDigest
  }

  ghost function Judge(c: Context, b: Bundle): Option<Outcome> {
    var trials :- if b.trials == [] then None else UseTrials(c, [], b.trials);
    var invariants :- UseInvariants(c, trials.spent, b);
    var report :- G.ComputeReport(c.host.collate, trials.value);
    var input := GateInputOf(c.policy, invariants.value);
    if !D.ValidInput(input) then None
    else
      var blockers := D.Walk(report, input, D.Pairs(input.expectedProviders, input.expectedTrustTiers)).blockers;
      Some(Outcome(Evaluation(blockers, report), input, trials.value, invariants.spent))
  }

  /** The whole evaluation of a bundle against a pinned policy, or nothing when it throws. */
  ghost function Evaluate(
      host: Host, trust: Trust, policy: Option<Policy>, release: Bindings, b: Bundle): Option<Outcome>
  {
    var p :- policy;
    if !Requested(host, p, release, b) || b.tapeRoots == [] || !RootsAccepted(trust, b.tapeRoots) then None
    else Judge(Context(host, p, release, RootsOf(trust, b.tapeRoots)), b)
  }

  method JudgeBundle(c: Context, b: Bundle) returns (r: Option<Evaluation>, consumed: Consumed)
    ensures fresh(consumed)
    ensures r.Some? <==> Judge(c, b).Some?
    ensures r.Some? ==> r.value == Judge(c, b).value.evaluation && consumed.spent == Judge(c, b).value.spent
  {
    consumed := new Consumed();
    var trials := consumed.DeriveTrials(c, b.trials);
    if trials.None? {
      return None, consumed;
    }
    var invariants := consumed.DeriveInvariants(c, b);
    if invariants.None? {
      return None, consumed;
    }
    var report := G.ComputeTrustSpineEvaluationReport(c.host.collate, trials.value);
    if report.None? {
      return None, consumed;
    }
    var blockers := D.EvaluateTrustSpineReleaseGate(report.value, GateInputOf(c.policy, invariants.value));
    if blockers.None? {
      return None, consumed;
    }
    return Some(Evaluation(blockers.value, report.value)), consumed;
  }

  /** evaluateTrustSpineReleaseCampaignBundle, after the bundle's own signature and window. */
  method EvaluateTrustSpineReleaseCampaignBundle(
      host: Host, trust: Trust, policy: Option<Policy>, releaseCommit: string, releaseRef: string, b: Bundle)
    returns (r: Option<Evaluation>)
    ensures policy.None? ==> r.None?
    ensures policy.Some? ==>
              var release := Bindings(releaseCommit, releaseRef, host.policyDigest(policy.value));
              var outcome := Evaluate(host, trust, policy, release, b);
              && (r.Some? <==> outcome.Some?)
              && (r.Some? ==> r.value == outcome.value.evaluation)
  {
    var p :- policy;
    var release := Bindings(releaseCommit, releaseRef, host.policyDigest(p));
    if !Requested(host, p, release, b) {
      return None;
    }
    var roots :- ParseTapeRoots(trust, b.tapeRoots);
    var consumed;
    r, consumed := JudgeBundle(Context(host, p, release, roots), b);
  }
}
