/**
 * Exactly which tape exports are accepted, and what is read from them, stated on the stored events
 * (eval/trust-spine-release-gate-cli.ts).
 */
module TapeRecords {
  import opened Seqs
  import opened Tape
  import opened TapeCommitment

  // ------------------------------------------------------------ stored events

  /** `sha256:` and 64 lower-case hexadecimal digits. */
  predicate DigestForm(s: string) {
    |s| == 71 && s[..7] == "sha256:" && forall i :: 7 <= i < 71 ==> s[i] in "0123456789abcdef"
  }

  lemma {:induction false} HexDigits(c: char)
    ensures LowerHex(c) <==> c in "0123456789abcdef"
  {
    var digits := "0123456789abcdef";
    if LowerHex(c) {
      var i := if c <= '9' then c as int - '0' as int else c as int - 'a' as int + 10;
      assert digits[i] == c;
    }
  }

  lemma {:induction false} DigestMeaning(s: string)
    ensures IsDigest(s) <==> DigestForm(s)
  {
    if |s| == 71 {
      forall i | 7 <= i < 71 ensures LowerHex(s[i]) <==> s[i] in "0123456789abcdef" { HexDigits(s[i]); }
    }
  }

  /** Signer `k` is the first pinned under this binding. */
  ghost predicate FirstPinned(signers: seq<TrustedSigner>, s: Signer, k: nat) {
    k < |signers| && signers[k].binding == s && forall j :: 0 <= j < k ==> signers[j].binding != s
  }

  lemma {:induction false} SignerFound(signers: seq<TrustedSigner>, s: Signer) returns (k: nat)
    requires FindSigner(signers, s).Some?
    ensures FirstPinned(signers, s, k) && FindSigner(signers, s) == Some(signers[k])
  {
    k := 0;
    if signers[0].binding != s {
      var m := SignerFound(signers[1..], s);
      k := m + 1;
      assert forall j :: 1 <= j < k ==> signers[j] == signers[1..][j - 1];
    }
  }

  lemma {:induction false} SignerIs(signers: seq<TrustedSigner>, s: Signer, k: nat)
    requires FirstPinned(signers, s, k)
    ensures FindSigner(signers, s) == Some(signers[k])
  {
    if k > 0 {
      assert forall j :: 0 <= j < k ==> signers[1..][j] == signers[j + 1];
      SignerIs(signers[1..], s, k - 1);
    }
  }

  /** The signature verifies under the key pinned for the event's role. */
  ghost predicate SignedBy(trust: Trust, s: StoredEvent, checkpoint: bool, k: nat) {
    var signers := if checkpoint then trust.checkpointSigners else trust.tapeSigners;
    FirstPinned(signers, s.signer, k) && trust.verify(signers[k].publicKey, s.canonicalBytes, s.signature)
  }

  ghost predicate Signed(trust: Trust, s: StoredEvent, checkpoint: bool) {
    exists k :: SignedBy(trust, s, checkpoint, k)
  }

  /** The event read from a stored one: what its bytes decode to, under their hash, signed for its role. */
  ghost predicate StoredAs(trust: Trust, runId: string, s: StoredEvent, e: TapeEvent) {
    && trust.decode(s.canonicalBytes) == Some(e.canonical) && e.canonical.runId == runId
    && s.signatureEventId == e.canonical.eventId && s.algorithm == "ed25519"
    && DigestForm(s.canonicalEventHash)
    && e.canonicalEventHash == s.canonicalEventHash == trust.sha256(s.canonicalBytes)
    && Signed(trust, s, e.canonical.kind == "tape_checkpoint")
  }

  /** A stored event verifies exactly as one event, or not at all. */
  lemma {:induction false} StoredExactly(trust: Trust, runId: string, s: StoredEvent, e: TapeEvent)
    ensures VerifyStoredEvent(trust, runId, s) == Some(e) <==> StoredAs(trust, runId, s, e)
  {
    DigestMeaning(s.canonicalEventHash);
    var checkpoint := e.canonical.kind == "tape_checkpoint";
    var signers := if checkpoint then trust.checkpointSigners else trust.tapeSigners;
    if VerifyStoredEvent(trust, runId, s) == Some(e) {
      var k := SignerFound(signers, s.signer);
      assert SignedBy(trust, s, checkpoint, k);
    }
    if StoredAs(trust, runId, s, e) {
      var k :| SignedBy(trust, s, checkpoint, k);
      SignerIs(signers, s.signer, k);
      assert e == TapeEvent(e.canonical, e.canonicalEventHash);
    }
  }

  // -------------------------------------------------------------- checkpoints

  /** What a checkpoint event says: its run's, linear over SHA-256, over at least one event. */
  ghost predicate CheckpointSays(e: TapeEvent, cp: Checkpoint) {
    && e.canonical.payload.CheckpointPayload? && cp.eventId == e.canonical.eventId
    && cp.parentEventId == e.canonical.parentEventId
    && var b := e.canonical.payload.body;
       && b.runId == e.canonical.runId && b.algorithm == "sha256_linear"
       && cp.checkpointIndex == b.checkpointIndex >= 0 && cp.throughEventCount == b.throughEventCount > 0
       && cp.previousCheckpointEventId == b.previousCheckpointEventId && cp.throughEventId == b.throughEventId
       && cp.tapeRootHash == b.tapeRootHash && DigestForm(b.tapeRootHash)
  }

  lemma {:induction false} CheckpointExactly(e: TapeEvent, cp: Checkpoint)
    ensures ParseCheckpoint(e) == Some(cp) <==> CheckpointSays(e, cp)
  {
    if e.canonical.payload.CheckpointPayload? { DigestMeaning(e.canonical.payload.body.tapeRootHash); }
    if CheckpointSays(e, cp) {
      assert cp == Checkpoint(cp.eventId, cp.parentEventId, cp.checkpointIndex, cp.previousCheckpointEventId,
                              cp.throughEventId, cp.throughEventCount, cp.tapeRootHash);
    }
  }

  ghost predicate IsKind(e: TapeEvent) { e.canonical.kind == "tape_checkpoint" }

  /** The places of the checkpoint events, in tape order. */
  ghost predicate Places(events: seq<TapeEvent>, at: seq<nat>) {
    && (forall k :: 0 <= k < |at| ==> at[k] < |events| && IsKind(events[at[k]]))
    && (forall j, k :: 0 <= j < k < |at| ==> at[j] < at[k])
    && (forall i: nat :: i < |events| && IsKind(events[i]) ==> i in at)
  }

  /** The checkpoints are what the checkpoint events say, in tape order. */
  ghost predicate CheckpointsAt(events: seq<TapeEvent>, cps: seq<Checkpoint>, at: seq<nat>) {
    && Places(events, at) && |at| == |cps|
    && forall k :: 0 <= k < |at| ==> CheckpointSays(events[at[k]], cps[k])
  }

  lemma {:induction false} PlacesMore(events: seq<TapeEvent>, at: seq<nat>)
    requires events != [] && Places(events[..|events| - 1], at)
    ensures Places(events, if IsKind(events[|events| - 1]) then at + [|events| - 1] else at)
  {
    var n := |events| - 1;
    var more := if IsKind(events[n]) then at + [n] else at;
    forall k | 0 <= k < |more| ensures more[k] < |events| && IsKind(events[more[k]]) {
      if k < |at| { assert events[..n][at[k]] == events[at[k]]; }
    }
    forall i: nat | i < |events| && IsKind(events[i]) ensures i in more {
      if i < n { assert events[..n][i] == events[i] && i in at; } else { assert more[|at|] == n; }
    }
  }

  lemma {:induction false} PlaceAtLeast(events: seq<TapeEvent>, at: seq<nat>, k: nat)
    requires Places(events, at) && k < |at|
    ensures k <= at[k]
  {
    if k > 0 {
      PlaceAtLeast(events, at, k - 1);
      assert at[k - 1] < at[k];
    }
  }

  lemma {:induction false} PlacesCount(events: seq<TapeEvent>, at: seq<nat>)
    requires Places(events, at)
    ensures |at| <= |events|
  {
    if |at| > 0 { PlaceAtLeast(events, at, |at| - 1); }
  }

  lemma {:induction false} LastPlace(events: seq<TapeEvent>, at: seq<nat>)
    requires events != [] && Places(events, at)
    ensures IsKind(events[|events| - 1]) ==> at != [] && at[|at| - 1] == |events| - 1
    ensures forall k :: 0 <= k < |at| && (k < |at| - 1 || !IsKind(events[|events| - 1])) ==> at[k] < |events| - 1
  {
    var n := |events| - 1;
    if IsKind(events[n]) {
      var k :| 0 <= k < |at| && at[k] == n;
      assert at[|at| - 1] < |events|;
    }
    forall k | 0 <= k < |at| && (k < |at| - 1 || !IsKind(events[n])) ensures at[k] < n {
      assert IsKind(events[at[k]]);
      assert k < |at| - 1 ==> at[k] < at[|at| - 1];
    }
  }

  lemma {:induction false} PlacesInit(events: seq<TapeEvent>, at: seq<nat>)
    requires events != [] && Places(events, at)
    ensures var n := |events| - 1;
            if IsKind(events[n])
            then at != [] && at[|at| - 1] == n && Places(events[..n], at[..|at| - 1])
            else Places(events[..n], at)
  {
    var n := |events| - 1;
    LastPlace(events, at);
    var m := if IsKind(events[n]) then |at| - 1 else |at|;
    PlacesWithin(events, at, m);
    assert at[..|at|] == at;
  }

  lemma {:induction false} PlacesWithin(events: seq<TapeEvent>, at: seq<nat>, m: nat)
    requires events != [] && Places(events, at) && m <= |at|
    requires forall k :: 0 <= k < m ==> at[k] < |events| - 1
    requires forall k :: m <= k < |at| ==> at[k] == |events| - 1
    ensures Places(events[..|events| - 1], at[..m])
  {
    var n := |events| - 1;
    forall k | 0 <= k < m ensures at[..m][k] < n && IsKind(events[..n][at[..m][k]]) {
      assert IsKind(events[at[k]]);
    }
    forall i: nat | i < n && IsKind(events[..n][i]) ensures i in at[..m] {
      assert IsKind(events[i]);
      var k :| 0 <= k < |at| && at[k] == i;
      assert at[..m][k] == i;
    }
  }

  lemma {:induction false} CheckpointsFound(events: seq<TapeEvent>) returns (at: seq<nat>)
    requires CheckpointsParse(events)
    ensures CheckpointsAt(events, CheckpointsOf(events), at)
  {
    at := [];
    if events != [] {
      var n := |events| - 1;
      var before := CheckpointsFound(events[..n]);
      PlacesMore(events, before);
      at := if IsKind(events[n]) then before + [n] else before;
      assert events[n] in events;
      forall k | 0 <= k < |at| ensures CheckpointSays(events[at[k]], CheckpointsOf(events)[k]) {
        if k < |before| {
          assert CheckpointSays(events[..n][before[k]], CheckpointsOf(events[..n])[k]);
        } else {
          CheckpointExactly(events[n], ParseCheckpoint(events[n]).value);
        }
      }
    }
  }

  lemma {:induction false} CheckpointsInit(events: seq<TapeEvent>, cps: seq<Checkpoint>, at: seq<nat>)
    requires CheckpointsAt(events, cps, at) && events != []
    ensures var n := |events| - 1;
            if IsKind(events[n]) then
              && cps != [] && CheckpointsAt(events[..n], cps[..|cps| - 1], at[..|cps| - 1])
              && CheckpointSays(events[n], cps[|cps| - 1])
            else CheckpointsAt(events[..n], cps, at)
  {
    var n := |events| - 1;
    PlacesInit(events, at);
    var m := if IsKind(events[n]) then |at| - 1 else |at|;
    forall k | 0 <= k < m ensures at[k] < n && CheckpointSays(events[..n][at[k]], cps[k]) {
      assert at[..m][k] == at[k];
    }
  }

  lemma {:induction false} CheckpointsIs(events: seq<TapeEvent>, cps: seq<Checkpoint>, at: seq<nat>)
    requires CheckpointsAt(events, cps, at)
    ensures CheckpointsParse(events) && CheckpointsOf(events) == cps
  {
    if events == [] {
      PlacesCount(events, at);
    } else {
      var n := |events| - 1;
      CheckpointsInit(events, cps, at);
      assert events == events[..n] + [events[n]];
      if IsKind(events[n]) {
        var m := |at| - 1;
        CheckpointsIs(events[..n], cps[..m], at[..m]);
        CheckpointExactly(events[n], cps[m]);
        assert cps == cps[..m] + [cps[m]];
      } else {
        CheckpointsIs(events[..n], cps, at);
      }
    }
  }

  // ------------------------------------------------------------------- covers

  ghost predicate Reached(id: string, through: string) { id == through || StrBelow(id, through) }

  /** The non-checkpoint events up to a boundary, each once, in ascending order of their ids. */
  ghost predicate CoverIs(events: seq<TapeEvent>, through: string, cover: seq<TapeEvent>) {
    && (forall e :: e in cover <==> e in events && !IsKind(e) && Reached(e.canonical.eventId, through))
    && (forall i, j :: 0 <= i < j < |cover| ==> StrBelow(cover[i].canonical.eventId, cover[j].canonical.eventId))
  }

  lemma {:induction false} CoverMeaning(events: seq<TapeEvent>, through: string)
    requires DistinctIds(events)
    ensures CoverIs(events, through, Cover(events, through))
  {
    var cover := Cover(events, through);
    forall e ensures e in cover <==> e in events && !IsKind(e) && Reached(e.canonical.eventId, through) {
      CoverMembers(events, through, e);
      StrLeMeaning(EventId(e), through);
    }
    CoverDistinct(events, through);
    StrTotalOrder();
    SortSorted(EventId, StrLe, UpTo(events, through));
    forall i, j | 0 <= i < j < |cover|
      ensures StrBelow(cover[i].canonical.eventId, cover[j].canonical.eventId)
    {
      assert StrLe(EventId(cover[i]), EventId(cover[j]));
      StrLeMeaning(EventId(cover[i]), EventId(cover[j]));
    }
  }

  lemma {:induction false} BelowDiffers(x: string, y: string)
    requires StrBelow(x, y)
    ensures x != y && StrLe(x, y)
  {
    StrLeMeaning(x, y);
    var k: nat :| StrPartsAt(x, y, k);
  }

  lemma {:induction false} CoverUnique(events: seq<TapeEvent>, through: string, a: seq<TapeEvent>, b: seq<TapeEvent>)
    requires CoverIs(events, through, a) && CoverIs(events, through, b)
    ensures a == b
  {
    CoverSorted(events, through, a);
    CoverSorted(events, through, b);
    assert ToSet(a) == ToSet(b);
    DistinctPermutation(a, b);
    StrTotalOrder();
    SortedUnique(EventId, StrLe, a, b);
  }

  lemma {:induction false} CoverSorted(events: seq<TapeEvent>, through: string, a: seq<TapeEvent>)
    requires CoverIs(events, through, a)
    ensures SortedBy(EventId, StrLe, a) && Distinct(a) && Untied(EventId, StrLe, a)
  {
    forall i, j | 0 <= i < j < |a| ensures StrLe(EventId(a[i]), EventId(a[j])) && EventId(a[i]) != EventId(a[j]) {
      BelowDiffers(a[i].canonical.eventId, a[j].canonical.eventId);
    }
    forall x, y | x in a && y in a && StrLe(EventId(x), EventId(y)) && StrLe(EventId(y), EventId(x)) ensures x == y {
      LexAntisymmetric(CharRank, EventId(x), EventId(y));
      var i :| 0 <= i < |a| && a[i] == x;
      var j :| 0 <= j < |a| && a[j] == y;
    }
  }

  /** Lines are joined by one newline between neighbours. */
  lemma {:induction false} JoinMore(lines: seq<string>, line: string)
    ensures Join([]) == "" && Join([line]) == line
    ensures lines != [] ==> Join(lines + [line]) == Join(lines) + "\n" + line
  {
    if |lines| > 1 {
      JoinMore(lines[1..], line);
      assert (lines + [line])[1..] == lines[1..] + [line];
    } else if |lines| == 1 {
      assert (lines + [line])[1..] == [line];
    }
  }

  /** The checkpoint's boundary is its parent, ends its cover, and its count and root hash are the cover's. */
  ghost predicate CheckpointSound(trust: Trust, cp: Checkpoint, events: seq<TapeEvent>) {
    exists cover :: CoverIs(events, cp.throughEventId, cover) && CoverBacks(trust, cp, cover)
  }

  ghost predicate CoverBacks(trust: Trust, cp: Checkpoint, cover: seq<TapeEvent>) {
    && |cover| == cp.throughEventCount > 0 && cover[|cover| - 1].canonical.eventId == cp.throughEventId
    && cp.parentEventId == Some(cp.throughEventId) && cp.tapeRootHash == trust.sha256(Join(Hashes(cover)))
  }

  lemma {:induction false} SoundExactly(trust: Trust, cp: Checkpoint, events: seq<TapeEvent>)
    requires DistinctIds(events)
    ensures CheckpointHolds(trust, cp, events) <==> CheckpointSound(trust, cp, events)
  {
    CoverMeaning(events, cp.throughEventId);
    if cover :| CoverIs(events, cp.throughEventId, cover) && CoverBacks(trust, cp, cover) {
      CoverUnique(events, cp.throughEventId, cover, Cover(events, cp.throughEventId));
    }
  }

  // ------------------------------------------------------------------ the tape

  ghost predicate Chained(cps: seq<Checkpoint>) {
    forall k :: 0 <= k < |cps| ==> ChainedAt(cps, k)
  }

  ghost predicate ChainedAt(cps: seq<Checkpoint>, k: nat)
    requires k < |cps|
  {
    && cps[k].checkpointIndex == k && (k == 0 ==> cps[k].previousCheckpointEventId.None?)
    && (k > 0 ==> cps[k].previousCheckpointEventId == Some(cps[k - 1].eventId))
  }

  lemma {:induction false} ChainExactly(cps: seq<Checkpoint>)
    ensures ChainHolds(cps) <==> Chained(cps)
  {
    assert forall k :: 0 <= k < |cps| ==> (LinkHolds(cps, k) <==> ChainedAt(cps, k));
  }

  ghost predicate EventsTaken(trust: Trust, tape: TapeExport, events: seq<TapeEvent>) {
    && |events| == |tape.events| > 0
    && (forall i :: 0 <= i < |events| ==> StoredAs(trust, tape.runId, tape.events[i], events[i]))
    && (forall i, j :: 0 <= i < j < |events| ==> events[i].canonical.eventId != events[j].canonical.eventId)
  }

  ghost predicate TapeTaken(trust: Trust, tape: TapeExport, t: SignedTape) {
    && t.runId == tape.runId && EventsTaken(trust, tape, t.events)
    && (exists at :: CheckpointsAt(t.events, t.checkpoints, at))
    && (forall cp :: cp in t.checkpoints ==> CheckpointSound(trust, cp, t.events)) && Chained(t.checkpoints)
  }

  lemma {:induction false} EventsExactly(trust: Trust, tape: TapeExport, events: seq<TapeEvent>)
    ensures EventsTaken(trust, tape, events) <==>
            && tape.events != [] && AllVerify(trust, tape.runId, tape.events)
            && Events(trust, tape.runId, tape.events) == events && DistinctIds(events)
  {
    if tape.events != [] && AllVerify(trust, tape.runId, tape.events)
       && Events(trust, tape.runId, tape.events) == events {
      forall i | 0 <= i < |events| ensures StoredAs(trust, tape.runId, tape.events[i], events[i]) {
        assert tape.events[i] in tape.events;
        StoredExactly(trust, tape.runId, tape.events[i], events[i]);
      }
    }
    if EventsTaken(trust, tape, events) {
      forall s | s in tape.events ensures VerifyStoredEvent(trust, tape.runId, s).Some? {
        var i :| 0 <= i < |tape.events| && tape.events[i] == s;
        StoredExactly(trust, tape.runId, s, events[i]);
      }
      forall i | 0 <= i < |events| ensures Events(trust, tape.runId, tape.events)[i] == events[i] {
        StoredExactly(trust, tape.runId, tape.events[i], events[i]);
      }
    }
  }

  lemma {:induction false} CheckpointListExactly(events: seq<TapeEvent>, cps: seq<Checkpoint>)
    ensures (exists at :: CheckpointsAt(events, cps, at)) <==> CheckpointsParse(events) && CheckpointsOf(events) == cps
  {
    if CheckpointsParse(events) && CheckpointsOf(events) == cps { var at := CheckpointsFound(events); }
    if at :| CheckpointsAt(events, cps, at) { CheckpointsIs(events, cps, at); }
  }

  lemma {:induction false} SoundList(trust: Trust, cps: seq<Checkpoint>, events: seq<TapeEvent>)
    requires DistinctIds(events)
    ensures (forall cp :: cp in cps ==> CheckpointHolds(trust, cp, events)) <==>
            (forall cp :: cp in cps ==> CheckpointSound(trust, cp, events))
  {
    forall cp ensures CheckpointHolds(trust, cp, events) <==> CheckpointSound(trust, cp, events) {
      SoundExactly(trust, cp, events);
    }
  }

  /**
   * A tape export is accepted as a signed tape exactly when every stored event is read as its event, no id repeats, the
   * checkpoints are those of its checkpoint events, each is backed by the events it covers, and they form one chain.
   */
  lemma {:induction false} TapeExactly(trust: Trust, tape: TapeExport, t: SignedTape)
    ensures TapeAccepted(trust, tape) && Verified(trust, tape) == t <==> TapeTaken(trust, tape, t)
  {
    EventsExactly(trust, tape, t.events);
    CheckpointListExactly(t.events, t.checkpoints);
    ChainExactly(t.checkpoints);
    if DistinctIds(t.events) { SoundList(trust, t.checkpoints, t.events); }
    assert t == SignedTape(t.runId, t.events, t.checkpoints);
  }

  // ------------------------------------------------------------ resolution

  ghost predicate NamedAt(cps: seq<Checkpoint>, d: Declared, k: nat) {
    && k < |cps|
    && forall j :: 0 <= j < |cps| ==>
         ((&& cps[j].throughEventId == d.throughEventId && cps[j].throughEventCount == d.throughEventCount
           && cps[j].tapeRootHash == d.tapeRootHash) <==> j == k)
  }

  lemma {:induction false} NoMatch(cps: seq<Checkpoint>, d: Declared)
    ensures Matches(cps, d) == 0 <==> forall j :: 0 <= j < |cps| ==> !Names(cps[j], d)
  {
    if cps != [] {
      var n := |cps| - 1;
      NoMatch(cps[..n], d);
      assert forall j :: 0 <= j < n ==> cps[..n][j] == cps[j];
    }
  }

  lemma {:induction false} OneMatchFound(cps: seq<Checkpoint>, d: Declared) returns (k: nat)
    requires Matches(cps, d) == 1
    ensures NamedAt(cps, d, k)
  {
    var n := |cps| - 1;
    assert forall j :: 0 <= j < n ==> cps[..n][j] == cps[j];
    if Names(cps[n], d) {
      k := n;
      NoMatch(cps[..n], d);
    } else {
      k := OneMatchFound(cps[..n], d);
    }
  }

  lemma {:induction false} OneMatchIs(cps: seq<Checkpoint>, d: Declared, k: nat)
    requires NamedAt(cps, d, k)
    ensures Matches(cps, d) == 1
  {
    var n := |cps| - 1;
    assert forall j :: 0 <= j < n ==> cps[..n][j] == cps[j];
    if k == n { NoMatch(cps[..n], d); } else { OneMatchIs(cps[..n], d, k); }
  }

  /** The map holds exactly the non-checkpoint events up to the boundary, each under its own id. */
  ghost predicate MapIs(events: seq<TapeEvent>, through: string, m: map<string, TapeEvent>) {
    && (forall id :: id in m ==> m[id] in events && m[id].canonical.eventId == id)
    && (forall id :: id in m ==> !IsKind(m[id]) && Reached(id, through))
    && (forall e :: e in events && !IsKind(e) && Reached(e.canonical.eventId, through) ==> e.canonical.eventId in m)
  }

  lemma {:induction false} CoverMapIs(events: seq<TapeEvent>, through: string)
    requires DistinctIds(events)
    ensures MapIs(events, through, ById(Cover(events, through)))
  {
    var cover := Cover(events, through);
    CoverMeaning(events, through);
    CoverDistinct(events, through);
    forall id | id in ById(cover) ensures ById(cover)[id] in cover && ById(cover)[id].canonical.eventId == id {
      ByIdFrom(cover, id);
    }
    forall e | e in cover ensures e.canonical.eventId in ById(cover) { ByIdHas(cover, e); }
  }

  lemma {:induction false} MapUnique(
      events: seq<TapeEvent>, through: string, a: map<string, TapeEvent>, b: map<string, TapeEvent>)
    requires DistinctIds(events) && MapIs(events, through, a) && MapIs(events, through, b)
    ensures a == b
  {
    forall id | id in a ensures id in b && a[id] == b[id] { SameEntry(events, through, a, b, id); }
    forall id | id in b ensures id in a { SameEntry(events, through, b, a, id); }
  }

  lemma {:induction false} SameEntry(
      events: seq<TapeEvent>, through: string, a: map<string, TapeEvent>, b: map<string, TapeEvent>, id: string)
    requires DistinctIds(events) && MapIs(events, through, a) && MapIs(events, through, b) && id in a
    ensures id in b && a[id] == b[id]
  {
    assert a[id].canonical.eventId in b;
    IdsIdentify(events);
    assert EventId(a[id]) == EventId(b[id]);
  }

  lemma {:induction false} CoverMap(events: seq<TapeEvent>, through: string, m: map<string, TapeEvent>)
    requires DistinctIds(events)
    ensures ById(Cover(events, through)) == m <==> MapIs(events, through, m)
  {
    CoverMapIs(events, through);
    if MapIs(events, through, m) { MapUnique(events, through, ById(Cover(events, through)), m); }
  }

  /** A declared checkpoint resolves exactly when one checkpoint of the tape is the declared one, and to its events. */
  lemma {:induction false} ResolvesExactly(trust: Trust, tape: TapeExport, d: Declared, m: map<string, TapeEvent>)
    requires TapeAccepted(trust, tape)
    ensures var t := Verified(trust, tape);
            Resolve(t, d) == Some(m) <==>
            (exists k :: NamedAt(t.checkpoints, d, k)) && MapIs(t.events, d.throughEventId, m)
  {
    var t := Verified(trust, tape);
    ResolveNeedsOnlyOneMatch(trust, tape, d);
    CoverMap(t.events, d.throughEventId, m);
    if Matches(t.checkpoints, d) == 1 { var k := OneMatchFound(t.checkpoints, d); }
    if k: nat :| NamedAt(t.checkpoints, d, k) { OneMatchIs(t.checkpoints, d, k); }
  }
}
