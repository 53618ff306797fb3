/** Signed tapes: stored events, hash-rooted checkpoints, their chain and the events they cover. */
module Tape {
  import opened Seqs

  // ------------------------------------------------------------------- data

  datatype SourceRef = SourceRef(sourceEventId: string, sourceCanonicalEventHash: string)

  datatype Sources = Sources(
    modelRequest: SourceRef,
    candidate: SourceRef,
    acceptance: SourceRef,
    review: SourceRef,
    recovery: SourceRef,
    terminal: SourceRef)

  datatype Conclusion = Success | Failure | Cancelled | Skipped | TimedOut | Neutral | ActionRequired

  datatype TrialClaim = TrialClaim(
    taskId: string,
    provider: string,
    trustTier: string,
    trial: int,
    governed: bool,
    passed: bool,
    costUsdMicros: int,
    latencyMs: int,
    tokens: int,
    toolCalls: int,
    candidateCount: int,
    reviewerDisagreed: bool,
    falseApproval: bool,
    unauthorizedEffects: int,
    duplicateEffects: int,
    safetyViolations: int,
    recoveryCorrect: bool,
    illegitimateSuccess: bool,
    sources: Sources)

  datatype Claim =
    | Trial(claim: TrialClaim)
    | TargetBranchImmutability(immutable: bool, source: SourceRef)
    | BackwardReplayCompatibility(compatible: bool, source: SourceRef)
    | RequiredCheck(name: string, conclusion: Conclusion, source: SourceRef)

  datatype Evidence = Evidence(
    schemaVersion: int,
    releaseCommit: string,
    releaseRef: string,
    policyDigest: string,
    claim: Claim,
    claimDigest: string)

  datatype CheckpointBody = CheckpointBody(
    runId: string,
    checkpointIndex: int,
    throughEventId: string,
    throughEventCount: int,
    previousCheckpointEventId: Option<string>,
    tapeRootHash: string,
    algorithm: string)

  datatype Payload =
    | CheckpointPayload(body: CheckpointBody)
    | EvidencePayload(evidence: Evidence)
    | OtherPayload(text: string)

  /** The fields read out of an event's canonical bytes. */
  datatype CanonicalEvent = CanonicalEvent(
    eventId: string, runId: string, parentEventId: Option<string>, kind: string, payload: Payload)

  datatype Signer = Signer(actorId: string, keyId: string, publicKeyHash: string)

  datatype TrustedSigner = TrustedSigner(binding: Signer, publicKey: string)

  datatype StoredEvent = StoredEvent(
    canonicalBytes: string,
    signatureEventId: string,
    canonicalEventHash: string,
    algorithm: string,
    signer: Signer,
    signature: string)

  datatype TapeExport = TapeExport(runId: string, events: seq<StoredEvent>)

  /** Hashing, parsing and signature checking are the host's; the pinned signers are the trust root's. */
  datatype Trust = Trust(
    sha256: string -> string,
    decode: string -> Option<CanonicalEvent>,
    verify: (string, string, string) -> bool,
    tapeSigners: seq<TrustedSigner>,
    checkpointSigners: seq<TrustedSigner>)

  datatype TapeEvent = TapeEvent(canonical: CanonicalEvent, canonicalEventHash: string)

  datatype Checkpoint = Checkpoint(
    eventId: string,
    parentEventId: Option<string>,
    checkpointIndex: int,
    previousCheckpointEventId: Option<string>,
    throughEventId: string,
    throughEventCount: int,
    tapeRootHash: string)

  datatype SignedTape = SignedTape(runId: string, events: seq<TapeEvent>, checkpoints: seq<Checkpoint>)

  datatype Declared = Declared(throughEventId: string, throughEventCount: int, tapeRootHash: string)

  function EventId(e: TapeEvent): string { e.canonical.eventId }

  predicate IsCheckpoint(e: TapeEvent) { e.canonical.kind == "tape_checkpoint" }

  // -------------------------------------------------------- one stored event

  predicate LowerHex(c: char) { '0' <= c <= '9' || 'a' <= c <= 'f' }

  /** /^sha256:[a-f0-9]{64}$/ */
  predicate IsDigest(s: string) {
    |s| == 71 && s[..7] == "sha256:" && forall i :: 7 <= i < 71 ==> LowerHex(s[i])
  }

  function FindSigner(signers: seq<TrustedSigner>, s: Signer): Option<TrustedSigner> {
    if signers == [] then None
    else if signers[0].binding == s then Some(signers[0])
    else FindSigner(signers[1..], s)
  }

  function VerifyStoredEvent(trust: Trust, runId: string, e: StoredEvent): Option<TapeEvent> {
    var decoded := trust.decode(e.canonicalBytes);
    if decoded.None? then None
    else
      var c := decoded.value;
      var signers := if c.kind == "tape_checkpoint" then trust.checkpointSigners else trust.tapeSigners;
      var pinned := FindSigner(signers, e.signer);
      if && c.runId == runId
         && e.signatureEventId == c.eventId
         && IsDigest(e.canonicalEventHash) && e.canonicalEventHash == trust.sha256(e.canonicalBytes)
         && e.algorithm == "ed25519"
         && pinned.Some? && trust.verify(pinned.value.publicKey, e.canonicalBytes, e.signature)
      then Some(TapeEvent(c, e.canonicalEventHash))
      else None
  }

  function ParseCheckpoint(e: TapeEvent): Option<Checkpoint> {
    if !e.canonical.payload.CheckpointPayload? then None
    else
      var b := e.canonical.payload.body;
      if && b.runId == e.canonical.runId && b.checkpointIndex >= 0 && b.algorithm == "sha256_linear"
         && b.throughEventCount >= 1 && IsDigest(b.tapeRootHash)
      then Some(Checkpoint(e.canonical.eventId, e.canonical.parentEventId, b.checkpointIndex,
                           b.previousCheckpointEventId, b.throughEventId, b.throughEventCount, b.tapeRootHash))
      else None
  }

  // ---------------------------------------------------- the events of a tape

  predicate AllVerify(trust: Trust, runId: string, entries: seq<StoredEvent>) {
    forall e :: e in entries ==> VerifyStoredEvent(trust, runId, e).Some?
  }

  function Events(trust: Trust, runId: string, entries: seq<StoredEvent>): (r: seq<TapeEvent>)
    requires AllVerify(trust, runId, entries)
    ensures |r| == |entries|
    ensures forall i :: 0 <= i < |r| ==> r[i] == VerifyStoredEvent(trust, runId, entries[i]).value
  {
    if entries == [] then []
    else
      var n := |entries| - 1;
      assert entries[n] in entries;
      Events(trust, runId, entries[..n]) + [VerifyStoredEvent(trust, runId, entries[n]).value]
  }

  predicate DistinctIds(events: seq<TapeEvent>) {
    forall i, j :: 0 <= i < j < |events| ==> EventId(events[i]) != EventId(events[j])
  }

  predicate CheckpointsParse(events: seq<TapeEvent>) {
    forall e :: e in events && IsCheckpoint(e) ==> ParseCheckpoint(e).Some?
  }

  function CheckpointsOf(events: seq<TapeEvent>): seq<Checkpoint>
    requires CheckpointsParse(events)
  {
    if events == [] then []
    else
      var n := |events| - 1;
      assert events[n] in events;
      var rest := CheckpointsOf(events[..n]);
      if IsCheckpoint(events[n]) then rest + [ParseCheckpoint(events[n]).value] else rest
  }

  /** The non-checkpoint events whose id does not pass a boundary, in tape order. */
  function UpTo(events: seq<TapeEvent>, through: string): seq<TapeEvent> {
    if events == [] then []
    else
      var n := |events| - 1;
      var rest := UpTo(events[..n], through);
      if !IsCheckpoint(events[n]) && StrLe(EventId(events[n]), through) then rest + [events[n]] else rest
  }

  function Cover(events: seq<TapeEvent>, through: string): seq<TapeEvent> {
    Sort(EventId, StrLe, UpTo(events, through))
  }

  function Hashes(events: seq<TapeEvent>): (r: seq<string>)
    ensures |r| == |events| && forall i :: 0 <= i < |r| ==> r[i] == events[i].canonicalEventHash
  {
    if events == [] then [] else [events[0].canonicalEventHash] + Hashes(events[1..])
  }

  function Join(lines: seq<string>): string {
    if lines == [] then "" else if |lines| == 1 then lines[0] else lines[0] + "\n" + Join(lines[1..])
  }

  /** verifyTapeCheckpoint. */
  predicate CheckpointHolds(trust: Trust, cp: Checkpoint, events: seq<TapeEvent>) {
    var cover := Cover(events, cp.throughEventId);
    && cp.parentEventId == Some(cp.throughEventId)
    && cover != [] && EventId(cover[|cover| - 1]) == cp.throughEventId
    && |cover| == cp.throughEventCount
    && trust.sha256(Join(Hashes(cover))) == cp.tapeRootHash
  }

  predicate LinkHolds(cps: seq<Checkpoint>, k: nat)
    requires k < |cps|
  {
    && cps[k].checkpointIndex == k
    && cps[k].previousCheckpointEventId == if k == 0 then None else Some(cps[k - 1].eventId)
  }

  /** Checkpoint k has index k and links to checkpoint k-1; the first links to nothing. */
  predicate ChainHolds(cps: seq<Checkpoint>) {
    forall k :: 0 <= k < |cps| ==> LinkHolds(cps, k)
  }

  /** verifyTapeCheckpointChain: only neighbours are compared, yet every index is fixed. */
  method VerifyTapeCheckpointChain(cps: seq<Checkpoint>) returns (ok: bool)
    ensures ok <==> ChainHolds(cps)
  {
    var previous: Option<Checkpoint> := None;
    for i := 0 to |cps|
      invariant forall k :: 0 <= k < i ==> LinkHolds(cps, k)
      invariant previous == if i == 0 then None else Some(cps[i - 1])
    {
      var c := cps[i];
      assert i > 0 ==> LinkHolds(cps, i - 1);
      if previous.None? {
        if c.checkpointIndex != 0 || c.previousCheckpointEventId.Some? {
          assert !LinkHolds(cps, i);
          return false;
        }
      } else {
        if c.checkpointIndex != previous.value.checkpointIndex + 1 {
          assert !LinkHolds(cps, i);
          return false;
        }
        if c.previousCheckpointEventId != Some(previous.value.eventId) {
          assert !LinkHolds(cps, i);
          return false;
        }
      }
      previous := Some(c);
    }
    return true;
  }

  ghost predicate EventsAccepted(trust: Trust, events: seq<TapeEvent>) {
    && DistinctIds(events) && CheckpointsParse(events)
    && (forall cp :: cp in CheckpointsOf(events) ==> CheckpointHolds(trust, cp, events))
    && ChainHolds(CheckpointsOf(events))
  }

  /** What a tape export has to be for verifySignedTape to return. */
  ghost predicate TapeAccepted(trust: Trust, tape: TapeExport) {
    tape.events != [] && AllVerify(trust, tape.runId, tape.events)
    && EventsAccepted(trust, Events(trust, tape.runId, tape.events))
  }

  ghost function Verified(trust: Trust, tape: TapeExport): SignedTape
    requires TapeAccepted(trust, tape)
  {
    var events := Events(trust, tape.runId, tape.events);
    SignedTape(tape.runId, events, CheckpointsOf(events))
  }

  ghost function IdsOf(events: seq<TapeEvent>): set<string> { set e | e in events :: EventId(e) }

  /** Every entry verifies, no id repeats, and every checkpoint event parses. */
  ghost predicate Readable(trust: Trust, runId: string, entries: seq<StoredEvent>) {
    AllVerify(trust, runId, entries)
    && DistinctIds(Events(trust, runId, entries)) && CheckpointsParse(Events(trust, runId, entries))
  }

  predicate Fits(e: TapeEvent, ids: set<string>) {
    EventId(e) !in ids && (IsCheckpoint(e) ==> ParseCheckpoint(e).Some?)
  }

  lemma {:induction false} FitsMeaning(events: seq<TapeEvent>, e: TapeEvent)
    requires DistinctIds(events) && CheckpointsParse(events)
    ensures Fits(e, IdsOf(events)) <==> DistinctIds(events + [e]) && CheckpointsParse(events + [e])
    ensures IdsOf(events + [e]) == IdsOf(events) + {EventId(e)}
  {
    var more := events + [e];
    assert e in more;
    if Fits(e, IdsOf(events)) {
      forall i | 0 <= i < |events| ensures EventId(events[i]) != EventId(e) { assert events[i] in events; }
    } else if EventId(e) in IdsOf(events) {
      var d :| d in events && EventId(d) == EventId(e);
      var i :| 0 <= i < |events| && events[i] == d;
      assert more[i] == d && more[|events|] == e;
    }
  }

  lemma {:induction false} EventsStep(trust: Trust, runId: string, entries: seq<StoredEvent>, i: nat)
    requires i < |entries| && AllVerify(trust, runId, entries[..i])
    ensures AllVerify(trust, runId, entries[..i + 1]) <==> VerifyStoredEvent(trust, runId, entries[i]).Some?
    ensures AllVerify(trust, runId, entries[..i + 1]) ==>
              Events(trust, runId, entries[..i + 1])
              == Events(trust, runId, entries[..i]) + [VerifyStoredEvent(trust, runId, entries[i]).value]
  {
    assert entries[..i + 1] == entries[..i] + [entries[i]];
    assert entries[..i + 1][..i] == entries[..i];
    assert entries[i] in entries[..i + 1];
  }

  lemma {:induction false} ReadableStep(trust: Trust, runId: string, entries: seq<StoredEvent>, i: nat)
    requires i < |entries| && Readable(trust, runId, entries[..i])
    ensures Readable(trust, runId, entries[..i + 1]) <==>
            var parsed := VerifyStoredEvent(trust, runId, entries[i]);
            parsed.Some? && Fits(parsed.value, IdsOf(Events(trust, runId, entries[..i])))
    ensures Readable(trust, runId, entries[..i + 1]) ==>
              var e := VerifyStoredEvent(trust, runId, entries[i]).value;
              var events := Events(trust, runId, entries[..i]);
              && Events(trust, runId, entries[..i + 1]) == events + [e]
              && IdsOf(events + [e]) == IdsOf(events) + {EventId(e)}
              && CheckpointsOf(events + [e])
                 == CheckpointsOf(events) + if IsCheckpoint(e) then [ParseCheckpoint(e).value] else []
  {
    EventsStep(trust, runId, entries, i);
    var parsed := VerifyStoredEvent(trust, runId, entries[i]);
    if parsed.Some? {
      var events := Events(trust, runId, entries[..i]);
      FitsMeaning(events, parsed.value);
      assert (events + [parsed.value])[..i] == events;
    }
  }

  lemma {:induction false} ReadablePrefix(trust: Trust, runId: string, entries: seq<StoredEvent>, i: nat)
    requires i <= |entries| && Readable(trust, runId, entries)
    ensures Readable(trust, runId, entries[..i])
  {
    forall e | e in entries[..i] ensures VerifyStoredEvent(trust, runId, e).Some? { assert e in entries; }
    var all, some := Events(trust, runId, entries), Events(trust, runId, entries[..i]);
    assert forall k :: 0 <= k < i ==> some[k] == all[k];
    forall e | e in some && IsCheckpoint(e) ensures ParseCheckpoint(e).Some? { assert e in all; }
  }

  method ReadEvents(trust: Trust, tape: TapeExport) returns (ok: bool, events: seq<TapeEvent>, cps: seq<Checkpoint>)
    ensures ok <==> Readable(trust, tape.runId, tape.events)
    ensures ok ==> events == Events(trust, tape.runId, tape.events) && cps == CheckpointsOf(events)
  {
    events, cps := [], [];
    var ids: set<string> := {};
    var entries := tape.events;
    for i := 0 to |entries|
      invariant Readable(trust, tape.runId, entries[..i])
      invariant events == Events(trust, tape.runId, entries[..i])
      invariant ids == IdsOf(events)
      invariant cps == CheckpointsOf(events)
    {
      ReadableStep(trust, tape.runId, entries, i);
      if Readable(trust, tape.runId, entries) {
        ReadablePrefix(trust, tape.runId, entries, i + 1);
      }
      var parsed := VerifyStoredEvent(trust, tape.runId, entries[i]);
      if parsed.None? || EventId(parsed.value) in ids {
        return false, [], [];
      }
      var e := parsed.value;
      if IsCheckpoint(e) {
        var cp := ParseCheckpoint(e);
        if cp.None? {
          return false, [], [];
        }
        cps := cps + [cp.value];
      }
      ids := ids + {EventId(e)};
      events := events + [e];
    }
    assert entries[..|entries|] == entries;
    return true, events, cps;
  }

  method VerifyCheckpoints(trust: Trust, cps: seq<Checkpoint>, events: seq<TapeEvent>) returns (ok: bool)
    ensures ok <==> forall cp :: cp in cps ==> CheckpointHolds(trust, cp, events)
  {
    for i := 0 to |cps|
      invariant forall j :: 0 <= j < i ==> CheckpointHolds(trust, cps[j], events)
    {
      if !CheckpointHolds(trust, cps[i], events) {
        assert cps[i] in cps;
        return false;
      }
    }
    return true;
  }

  /** verifySignedTape. */
  method VerifySignedTape(trust: Trust, tape: TapeExport) returns (r: Option<SignedTape>)
    ensures r.Some? <==> TapeAccepted(trust, tape)
    ensures r.Some? ==> r.value == Verified(trust, tape)
  {
    if |tape.events| == 0 {
      return None;
    }
    var ok, events, cps := ReadEvents(trust, tape);
    if !ok {
      return None;
    }
    var sound := VerifyCheckpoints(trust, cps, events);
    if !sound {
      return None;
    }
    var chained := VerifyTapeCheckpointChain(cps);
    if !chained {
      return None;
    }
    return Some(SignedTape(tape.runId, events, cps));
  }

  // ------------------------------------------------- resolving a declared checkpoint

  predicate Names(cp: Checkpoint, d: Declared) {
    && cp.throughEventId == d.throughEventId
    && cp.throughEventCount == d.throughEventCount && cp.tapeRootHash == d.tapeRootHash
  }

  function Matches(cps: seq<Checkpoint>, d: Declared): nat {
    if cps == [] then 0
    else Matches(cps[..|cps| - 1], d) + if Names(cps[|cps| - 1], d) then 1 else 0
  }

  function ById(events: seq<TapeEvent>): map<string, TapeEvent> {
    if events == [] then map[]
    else ById(events[..|events| - 1])[EventId(events[|events| - 1]) := events[|events| - 1]]
  }

  /** resolveDeclaredTapeCheckpoint. */
  function Resolve(tape: SignedTape, d: Declared): Option<map<string, TapeEvent>> {
    var cover := Cover(tape.events, d.throughEventId);
    if Matches(tape.checkpoints, d) != 1 then None
    else if |cover| != d.throughEventCount then None
    else Some(ById(cover))
  }
}
