/** What a verified checkpoint commits a tape to, and what it leaves free. */
module TapeCommitment {
  import opened Seqs
  import opened Tape

  // ------------------------------------------------------------ covers

  lemma {:induction false} UpToMembers(events: seq<TapeEvent>, through: string, e: TapeEvent)
    ensures e in UpTo(events, through) <==> e in events && !IsCheckpoint(e) && StrLe(EventId(e), through)
  {
    if events != [] {
      UpToMembers(events[..|events| - 1], through, e);
      assert events == events[..|events| - 1] + [events[|events| - 1]];
    }
  }

  lemma {:induction false} CoverMembers(events: seq<TapeEvent>, through: string, e: TapeEvent)
    ensures e in Cover(events, through) <==> e in events && !IsCheckpoint(e) && StrLe(EventId(e), through)
  {
    UpToMembers(events, through, e);
    SortMembers(EventId, StrLe, UpTo(events, through), e);
  }

  lemma {:induction false} IdsIdentify(events: seq<TapeEvent>)
    requires DistinctIds(events)
    ensures KeysIdentify(EventId, events)
  {
    forall x, y | x in events && y in events && EventId(x) == EventId(y) ensures x == y {
      var i :| 0 <= i < |events| && events[i] == x;
      var j :| 0 <= j < |events| && events[j] == y;
    }
  }

  lemma {:induction false} UpToDistinct(events: seq<TapeEvent>, through: string)
    requires DistinctIds(events)
    ensures DistinctIds(UpTo(events, through))
  {
    if events != [] {
      var n := |events| - 1;
      UpToDistinct(events[..n], through);
      var rest := UpTo(events[..n], through);
      forall i | 0 <= i < |rest| ensures EventId(rest[i]) != EventId(events[n]) {
        UpToMembers(events[..n], through, rest[i]);
        var j :| 0 <= j < n && events[j] == rest[i];
      }
    }
  }

  lemma {:induction false} DistinctIdsDistinct(events: seq<TapeEvent>)
    requires DistinctIds(events)
    ensures Distinct(events)
  {
  }

  // ------------------------------------- resolution after verification

  lemma {:induction false} MatchExists(cps: seq<Checkpoint>, d: Declared) returns (cp: Checkpoint)
    requires Matches(cps, d) > 0
    ensures cp in cps && Names(cp, d)
  {
    var n := |cps| - 1;
    assert cps == cps[..n] + [cps[n]];
    if Names(cps[n], d) { cp := cps[n]; } else { cp := MatchExists(cps[..n], d); }
  }

  /** Once a tape is verified, the count re-check of the resolver never fires: one match is enough. */
  lemma {:induction false} ResolveNeedsOnlyOneMatch(trust: Trust, tape: TapeExport, d: Declared)
    requires TapeAccepted(trust, tape)
    ensures Resolve(Verified(trust, tape), d).Some? <==> Matches(Verified(trust, tape).checkpoints, d) == 1
  {
    var t := Verified(trust, tape);
    if Matches(t.checkpoints, d) == 1 {
      var cp := MatchExists(t.checkpoints, d);
      assert CheckpointHolds(trust, cp, t.events);
    }
  }

  lemma {:induction false} ResolvedCheckpoint(trust: Trust, tape: TapeExport, d: Declared) returns (cp: Checkpoint)
    requires TapeAccepted(trust, tape) && Resolve(Verified(trust, tape), d).Some?
    ensures cp in Verified(trust, tape).checkpoints && Names(cp, d)
    ensures CheckpointHolds(trust, cp, Verified(trust, tape).events)
  {
    cp := MatchExists(Verified(trust, tape).checkpoints, d);
  }

  lemma {:induction false} ByIdFrom(events: seq<TapeEvent>, id: string)
    requires id in ById(events)
    ensures ById(events)[id] in events && EventId(ById(events)[id]) == id
  {
    var n := |events| - 1;
    assert events == events[..n] + [events[n]];
    if EventId(events[n]) != id { ByIdFrom(events[..n], id); }
  }

  lemma {:induction false} ByIdHas(events: seq<TapeEvent>, e: TapeEvent)
    requires DistinctIds(events) && e in events
    ensures EventId(e) in ById(events) && ById(events)[EventId(e)] == e
  {
    var n := |events| - 1;
    assert events == events[..n] + [events[n]];
    if e != events[n] {
      var i :| 0 <= i < n && events[i] == e;
      assert EventId(events[i]) != EventId(events[n]);
      ByIdHas(events[..n], e);
    }
  }

  lemma {:induction false} ByIdSize(events: seq<TapeEvent>)
    requires DistinctIds(events)
    ensures |ById(events)| == |events|
  {
    if events != [] {
      var n := |events| - 1;
      ByIdSize(events[..n]);
      var id := EventId(events[n]);
      assert id !in ById(events[..n]) by {
        if id in ById(events[..n]) { ByIdFrom(events[..n], id); }
      }
    }
  }

  lemma {:induction false} CoverDistinct(events: seq<TapeEvent>, through: string)
    requires DistinctIds(events)
    ensures DistinctIds(Cover(events, through))
  {
    var a, b := UpTo(events, through), Cover(events, through);
    UpToDistinct(events, through);
    DistinctIdsDistinct(a);
    SortPermutes(EventId, StrLe, a);
    forall i, j | 0 <= i < j < |b| ensures EventId(b[i]) != EventId(b[j]) {
      SortMembers(EventId, StrLe, a, b[i]);
      SortMembers(EventId, StrLe, a, b[j]);
      IdsIdentify(a);
      if b[i] == b[j] {
        assert b == b[..j] + [b[j]] + b[j + 1..];
        assert b[i] in b[..j];
        assert multiset(b)[b[i]] > 1;
        DistinctOnce(a, b[i]);
      }
    }
  }

  /** A resolved map holds exactly the covered non-checkpoint events, as many as were declared. */
  lemma {:induction false} ResolvedMeaning(trust: Trust, tape: TapeExport, d: Declared)
    requires TapeAccepted(trust, tape) && Resolve(Verified(trust, tape), d).Some?
    ensures var m := Resolve(Verified(trust, tape), d).value;
            && |m| == d.throughEventCount
            && (forall id :: id in m ==>
                  var e := m[id];
                  EventId(e) == id && e.canonical.runId == tape.runId && !IsCheckpoint(e)
                  && e in Verified(trust, tape).events && StrLe(id, d.throughEventId))
  {
    var t := Verified(trust, tape);
    var cover := Cover(t.events, d.throughEventId);
    CoverDistinct(t.events, d.throughEventId);
    ByIdSize(cover);
    forall id | id in ById(cover)
      ensures var e := ById(cover)[id];
              EventId(e) == id && e.canonical.runId == tape.runId && !IsCheckpoint(e) && e in t.events
              && StrLe(id, d.throughEventId)
    {
      ByIdFrom(cover, id);
      var e := ById(cover)[id];
      CoverMembers(t.events, d.throughEventId, e);
      var s := EventSource(trust, tape, e);
    }
  }

  // ------------------------------------------------------- boundaries nest

  /** The resolved map leaves out no event that its boundary covers. */
  lemma {:induction false} ResolvedHasAll(trust: Trust, tape: TapeExport, d: Declared, e: TapeEvent)
    requires TapeAccepted(trust, tape) && Resolve(Verified(trust, tape), d).Some?
    requires e in Verified(trust, tape).events && !IsCheckpoint(e) && StrLe(EventId(e), d.throughEventId)
    ensures EventId(e) in Resolve(Verified(trust, tape), d).value
    ensures Resolve(Verified(trust, tape), d).value[EventId(e)] == e
  {
    var events := Verified(trust, tape).events;
    CoverMembers(events, d.throughEventId, e);
    CoverDistinct(events, d.throughEventId);
    ByIdHas(Cover(events, d.throughEventId), e);
  }

  lemma {:induction false} UpToNests(events: seq<TapeEvent>, a: string, b: string)
    requires StrLe(a, b)
    ensures UpTo(UpTo(events, b), a) == UpTo(events, a)
  {
    if events != [] {
      var n := |events| - 1;
      UpToNests(events[..n], a, b);
      var e, rest := events[n], UpTo(events[..n], b);
      if StrLe(EventId(e), a) { LexTransitive(CharRank, EventId(e), a, b); }
      assert (rest + [e])[..|rest|] == rest;
    }
  }

  lemma {:induction false} UpToCount(events: seq<TapeEvent>, through: string, e: TapeEvent)
    ensures multiset(UpTo(events, through))[e] ==
            if !IsCheckpoint(e) && StrLe(EventId(e), through) then multiset(events)[e] else 0
  {
    if events != [] {
      var n := |events| - 1;
      UpToCount(events[..n], through, e);
      assert events == events[..n] + [events[n]];
    }
  }

  lemma {:induction false} UpToPermuted(a: seq<TapeEvent>, b: seq<TapeEvent>, through: string)
    requires forall e :: !IsCheckpoint(e) ==> multiset(a)[e] == multiset(b)[e]
    ensures multiset(UpTo(a, through)) == multiset(UpTo(b, through))
  {
    forall e ensures multiset(UpTo(a, through))[e] == multiset(UpTo(b, through))[e] {
      UpToCount(a, through, e);
      UpToCount(b, through, e);
    }
  }

  lemma {:induction false} UpToAll(s: seq<TapeEvent>, through: string)
    requires forall i :: 0 <= i < |s| ==> !IsCheckpoint(s[i]) && StrLe(EventId(s[i]), through)
    ensures UpTo(s, through) == s
  {
    if s != [] {
      UpToAll(s[..|s| - 1], through);
      assert s == s[..|s| - 1] + [s[|s| - 1]];
    }
  }

  lemma {:induction false} UpToOfSorted(s: seq<TapeEvent>, through: string)
    requires SortedBy(EventId, StrLe, s) && forall i :: 0 <= i < |s| ==> !IsCheckpoint(s[i])
    ensures UpTo(s, through) <= s
  {
    if s != [] {
      var n := |s| - 1;
      if StrLe(EventId(s[n]), through) {
        forall i | 0 <= i < |s| ensures StrLe(EventId(s[i]), through) {
          if i < n { LexTransitive(CharRank, EventId(s[i]), EventId(s[n]), through); }
        }
        UpToAll(s, through);
      } else {
        UpToOfSorted(s[..n], through);
      }
    }
  }

  /** The cover of a smaller boundary is a prefix of the cover of a larger one. */
  lemma {:induction false} SmallerCoverIsPrefix(events: seq<TapeEvent>, a: string, b: string)
    requires DistinctIds(events) && StrLe(a, b)
    ensures Cover(events, a) <= Cover(events, b)
  {
    var big := Cover(events, b);
    StrTotalOrder();
    SortSorted(EventId, StrLe, UpTo(events, b));
    SortPermutes(EventId, StrLe, UpTo(events, b));
    forall i | 0 <= i < |big| ensures !IsCheckpoint(big[i]) { CoverMembers(events, b, big[i]); }
    UpToOfSorted(big, a);
    var small := UpTo(big, a);
    UpToPermuted(big, UpTo(events, b), a);
    UpToNests(events, a, b);
    UpToDistinct(events, a);
    IdsIdentify(UpTo(events, a));
    SortSorted(EventId, StrLe, UpTo(events, a));
    SortPermutes(EventId, StrLe, UpTo(events, a));
    PrefixSorted(big, |small|);
    CoverIdentifies(events, a);
    SortedUnique(EventId, StrLe, Cover(events, a), small);
  }

  lemma {:induction false} CoverIdentifies(events: seq<TapeEvent>, a: string)
    requires DistinctIds(events)
    ensures KeysIdentify(EventId, Cover(events, a))
  {
    CoverDistinct(events, a);
    IdsIdentify(Cover(events, a));
  }

  lemma {:induction false} PrefixSorted(s: seq<TapeEvent>, n: nat)
    requires n <= |s| && SortedBy(EventId, StrLe, s)
    ensures SortedBy(EventId, StrLe, s[..n])
  {
  }

  // ------------------------------------------------------- commitment

  lemma {:induction false} JoinLength(lines: seq<string>)
    requires lines != [] && forall l :: l in lines ==> IsDigest(l)
    ensures |Join(lines)| == 72 * |lines| - 1
  {
    assert lines[0] in lines;
    if |lines| > 1 {
      forall l | l in lines[1..] ensures IsDigest(l) { assert l in lines; }
      JoinLength(lines[1..]);
    }
  }

  /** Joining digests with newlines loses nothing. */
  lemma {:induction false} JoinInjective(a: seq<string>, b: seq<string>)
    requires a != [] && b != []
    requires forall l :: l in a ==> IsDigest(l)
    requires forall l :: l in b ==> IsDigest(l)
    requires Join(a) == Join(b)
    ensures a == b
  {
    JoinLength(a);
    JoinLength(b);
    assert a[0] in a && b[0] in b;
    if |a| > 1 {
      forall l | l in a[1..] ensures IsDigest(l) { assert l in a; }
      forall l | l in b[1..] ensures IsDigest(l) { assert l in b; }
      var x, y := a[0] + "\n" + Join(a[1..]), b[0] + "\n" + Join(b[1..]);
      assert x == y;
      assert a[0] == x[..71] && b[0] == y[..71];
      assert Join(a[1..]) == x[72..] && Join(b[1..]) == y[72..];
      JoinInjective(a[1..], b[1..]);
      assert a == [a[0]] + a[1..] && b == [b[0]] + b[1..];
    } else {
      assert a == [a[0]] && b == [b[0]];
    }
  }

  /** The strings hashed while a tape and one of its covers are checked. */
  ghost function Hashed(trust: Trust, tape: TapeExport, through: string): set<string>
    requires TapeAccepted(trust, tape)
  {
    (set e | e in tape.events :: e.canonicalBytes)
    + {Join(Hashes(Cover(Verified(trust, tape).events, through)))}
  }

  ghost predicate CollisionFree(sha256: string -> string, strings: set<string>) {
    forall x, y :: x in strings && y in strings && sha256(x) == sha256(y) ==> x == y
  }

  lemma {:induction false} EventSource(trust: Trust, tape: TapeExport, e: TapeEvent) returns (s: StoredEvent)
    requires TapeAccepted(trust, tape) && e in Verified(trust, tape).events
    ensures s in tape.events && VerifyStoredEvent(trust, tape.runId, s) == Some(e)
  {
    var events := Verified(trust, tape).events;
    var i :| 0 <= i < |events| && events[i] == e;
    s := tape.events[i];
  }

  lemma {:induction false} SignerFound(signers: seq<TrustedSigner>, s: Signer)
    requires FindSigner(signers, s).Some?
    ensures FindSigner(signers, s).value in signers && FindSigner(signers, s).value.binding == s
  {
    if signers[0].binding != s { SignerFound(signers[1..], s); }
  }

  /** Every event of an accepted tape was signed, byte for byte, under a key pinned for its role. */
  lemma {:induction false} EventIsSigned(trust: Trust, tape: TapeExport, e: TapeEvent)
    returns (s: StoredEvent, key: TrustedSigner)
    requires TapeAccepted(trust, tape) && e in Verified(trust, tape).events
    ensures s in tape.events && trust.decode(s.canonicalBytes) == Some(e.canonical) && e.canonical.runId == tape.runId
    ensures e.canonicalEventHash == trust.sha256(s.canonicalBytes) && s.signatureEventId == EventId(e)
    ensures key in (if IsCheckpoint(e) then trust.checkpointSigners else trust.tapeSigners) && key.binding == s.signer
    ensures s.algorithm == "ed25519" && trust.verify(key.publicKey, s.canonicalBytes, s.signature)
  {
    s := EventSource(trust, tape, e);
    var pinned := if IsCheckpoint(e) then trust.checkpointSigners else trust.tapeSigners;
    SignerFound(pinned, s.signer);
    key := FindSigner(pinned, s.signer).value;
  }

  lemma {:induction false} CoverDigests(trust: Trust, tape: TapeExport, through: string)
    requires TapeAccepted(trust, tape)
    ensures forall l :: l in Hashes(Cover(Verified(trust, tape).events, through)) ==> IsDigest(l)
  {
    var events := Verified(trust, tape).events;
    var cover := Cover(events, through);
    forall l | l in Hashes(cover) ensures IsDigest(l) {
      var i :| 0 <= i < |cover| && Hashes(cover)[i] == l;
      CoverMembers(events, through, cover[i]);
      var s := EventSource(trust, tape, cover[i]);
    }
  }

  /** An event is fixed by its hash, short of a collision among the canonical bytes. */
  lemma {:induction false} HashFixesEvent(trust: Trust, t1: TapeExport, t2: TapeExport, e1: TapeEvent, e2: TapeEvent,
                                          strings: set<string>)
    requires TapeAccepted(trust, t1) && TapeAccepted(trust, t2)
    requires e1 in Verified(trust, t1).events && e2 in Verified(trust, t2).events
    requires e1.canonicalEventHash == e2.canonicalEventHash && CollisionFree(trust.sha256, strings)
    requires forall s :: s in t1.events || s in t2.events ==> s.canonicalBytes in strings
    ensures e1 == e2
  {
    var s1 := EventSource(trust, t1, e1);
    var s2 := EventSource(trust, t2, e2);
    assert s1.canonicalBytes in strings && s2.canonicalBytes in strings;
  }

  /**
   * Two accepted tapes whose declared checkpoints carry the same root hash resolve to the same
   * events, id by id, kind and payload included, and belong to the same run.
   */
  lemma {:induction false} RootCommitsToCover(trust: Trust, t1: TapeExport, t2: TapeExport, d1: Declared, d2: Declared)
    requires TapeAccepted(trust, t1) && TapeAccepted(trust, t2)
    requires Resolve(Verified(trust, t1), d1).Some? && Resolve(Verified(trust, t2), d2).Some?
    requires d1.tapeRootHash == d2.tapeRootHash
    requires CollisionFree(trust.sha256, Hashed(trust, t1, d1.throughEventId) + Hashed(trust, t2, d2.throughEventId))
    ensures Resolve(Verified(trust, t1), d1) == Resolve(Verified(trust, t2), d2)
    ensures d1.throughEventCount == d2.throughEventCount && d1.throughEventId == d2.throughEventId
    ensures t1.runId == t2.runId
  {
    var v1, v2 := Verified(trust, t1), Verified(trust, t2);
    var cp1 := ResolvedCheckpoint(trust, t1, d1);
    var cp2 := ResolvedCheckpoint(trust, t2, d2);
    var c1, c2 := Cover(v1.events, d1.throughEventId), Cover(v2.events, d2.throughEventId);
    var strings := Hashed(trust, t1, d1.throughEventId) + Hashed(trust, t2, d2.throughEventId);
    assert Join(Hashes(c1)) in strings && Join(Hashes(c2)) in strings;
    CoverDigests(trust, t1, d1.throughEventId);
    CoverDigests(trust, t2, d2.throughEventId);
    JoinInjective(Hashes(c1), Hashes(c2));
    forall i | 0 <= i < |c1| ensures c1[i] == c2[i] {
      assert Hashes(c1)[i] == Hashes(c2)[i];
      CoverMembers(v1.events, d1.throughEventId, c1[i]);
      CoverMembers(v2.events, d2.throughEventId, c2[i]);
      HashFixesEvent(trust, t1, t2, c1[i], c2[i], strings);
    }
    assert c1 == c2;
    CoverMembers(v1.events, d1.throughEventId, c1[0]);
    CoverMembers(v2.events, d2.throughEventId, c2[0]);
    var s1 := EventSource(trust, t1, c1[0]);
    var s2 := EventSource(trust, t2, c2[0]);
  }

  // ------------------------------------------------------- reordering

  function CheckpointEntries(trust: Trust, runId: string, entries: seq<StoredEvent>): seq<StoredEvent> {
    if entries == [] then []
    else
      var n := |entries| - 1;
      var rest := CheckpointEntries(trust, runId, entries[..n]);
      var e := VerifyStoredEvent(trust, runId, entries[n]);
      if e.Some? && IsCheckpoint(e.value) then rest + [entries[n]] else rest
  }

  /** The same stored events, with the checkpoint events still in the same order. */
  ghost predicate Reordered(trust: Trust, a: TapeExport, b: TapeExport) {
    && a.runId == b.runId && multiset(a.events) == multiset(b.events)
    && CheckpointEntries(trust, a.runId, a.events) == CheckpointEntries(trust, b.runId, b.events)
  }

  lemma {:induction false} SameEntries(a: seq<StoredEvent>, b: seq<StoredEvent>)
    requires multiset(a) == multiset(b)
    ensures |a| == |b| && forall e :: e in a <==> e in b
  {
    assert |multiset(a)| == |multiset(b)|;
    forall e ensures e in a <==> e in b { assert e in multiset(a) <==> e in multiset(b); }
  }

  lemma {:induction false} Reinserted(s: seq<TapeEvent>, i: nat)
    requires i < |s|
    ensures multiset(s) == multiset(s[..i] + s[i + 1..]) + multiset{s[i]}
  {
    assert s == s[..i] + [s[i]] + s[i + 1..];
  }

  lemma {:induction false} EventsRemove(trust: Trust, runId: string, entries: seq<StoredEvent>, i: nat)
    requires i < |entries| && AllVerify(trust, runId, entries)
    ensures AllVerify(trust, runId, entries[..i] + entries[i + 1..])
    ensures multiset(Events(trust, runId, entries)) ==
            multiset(Events(trust, runId, entries[..i] + entries[i + 1..]))
            + multiset{VerifyStoredEvent(trust, runId, entries[i]).value}
  {
    var rest := entries[..i] + entries[i + 1..];
    forall e | e in rest ensures VerifyStoredEvent(trust, runId, e).Some? { assert e in entries; }
    var all := Events(trust, runId, entries);
    assert Events(trust, runId, rest) == all[..i] + all[i + 1..];
    Reinserted(all, i);
  }

  lemma {:induction false} EventsPermuted(trust: Trust, runId: string, a: seq<StoredEvent>, b: seq<StoredEvent>)
    requires multiset(a) == multiset(b) && AllVerify(trust, runId, a) && AllVerify(trust, runId, b)
    ensures multiset(Events(trust, runId, a)) == multiset(Events(trust, runId, b))
    decreases |a|
  {
    SameEntries(a, b);
    if a != [] {
      var n := |a| - 1;
      assert a[n] in b;
      var i :| 0 <= i < |b| && b[i] == a[n];
      RemovedAt(a, n);
      RemovedAt(b, i);
      EventsRemove(trust, runId, a, n);
      EventsRemove(trust, runId, b, i);
      EventsPermuted(trust, runId, a[..n] + a[n + 1..], b[..i] + b[i + 1..]);
    }
  }

  lemma {:induction false} CheckpointsFromEntries(trust: Trust, runId: string, entries: seq<StoredEvent>)
    requires AllVerify(trust, runId, entries) && CheckpointsParse(Events(trust, runId, entries))
    ensures forall e :: e in CheckpointEntries(trust, runId, entries) ==> e in entries
    ensures AllVerify(trust, runId, CheckpointEntries(trust, runId, entries))
    ensures var kept := Events(trust, runId, CheckpointEntries(trust, runId, entries));
            CheckpointsParse(kept) && CheckpointsOf(Events(trust, runId, entries)) == CheckpointsOf(kept)
  {
    if entries != [] {
      var n := |entries| - 1;
      var init, last := entries[..n], entries[n];
      assert entries == init + [last];
      assert last in entries;
      var all := Events(trust, runId, entries);
      assert all[..n] == Events(trust, runId, init);
      forall e | e in all[..n] && IsCheckpoint(e) ensures ParseCheckpoint(e).Some? { assert e in all; }
      CheckpointsFromEntries(trust, runId, init);
      assert all[n] in all;
      var rest := CheckpointEntries(trust, runId, init);
      if IsCheckpoint(all[n]) {
        assert (rest + [last])[..|rest|] == rest;
        var kept := Events(trust, runId, rest + [last]);
        assert kept == Events(trust, runId, rest) + [all[n]];
        assert kept[..|rest|] == Events(trust, runId, rest);
      }
    }
  }

  lemma {:induction false} CoverPermuted(a: seq<TapeEvent>, b: seq<TapeEvent>, through: string)
    requires multiset(a) == multiset(b) && DistinctIds(a)
    ensures Cover(a, through) == Cover(b, through)
  {
    UpToPermuted(a, b, through);
    UpToDistinct(a, through);
    IdsIdentify(UpTo(a, through));
    StrTotalOrder();
    SortOfPermutation(EventId, StrLe, UpTo(a, through), UpTo(b, through));
  }

  lemma {:induction false} IdsPermuted(a: seq<TapeEvent>, b: seq<TapeEvent>)
    requires multiset(a) == multiset(b) && DistinctIds(a)
    ensures DistinctIds(b)
  {
    IdsIdentify(a);
    DistinctIdsDistinct(a);
    forall i, j | 0 <= i < j < |b| ensures EventId(b[i]) != EventId(b[j]) {
      assert b[i] in multiset(a) && b[j] in multiset(a);
      if b[i] == b[j] {
        assert b == b[..j] + [b[j]] + b[j + 1..];
        assert b[i] in b[..j];
        assert multiset(b)[b[i]] > 1;
        DistinctOnce(a, b[i]);
      }
    }
  }

  lemma {:induction false} ReorderedEvents(trust: Trust, a: TapeExport, b: TapeExport)
    requires Reordered(trust, a, b) && TapeAccepted(trust, a)
    ensures AllVerify(trust, b.runId, b.events)
    ensures multiset(Events(trust, a.runId, a.events)) == multiset(Events(trust, b.runId, b.events))
    ensures CheckpointsParse(Events(trust, b.runId, b.events))
    ensures CheckpointsOf(Events(trust, a.runId, a.events)) == CheckpointsOf(Events(trust, b.runId, b.events))
  {
    SameEntries(a.events, b.events);
    EventsPermuted(trust, a.runId, a.events, b.events);
    var ea, eb := Events(trust, a.runId, a.events), Events(trust, b.runId, b.events);
    forall e | e in eb && IsCheckpoint(e) ensures ParseCheckpoint(e).Some? { assert e in multiset(ea); }
    CheckpointsFromEntries(trust, a.runId, a.events);
    CheckpointsFromEntries(trust, b.runId, b.events);
  }

  lemma {:induction false} ReorderedAccepted(trust: Trust, a: TapeExport, b: TapeExport)
    requires Reordered(trust, a, b) && TapeAccepted(trust, a)
    ensures TapeAccepted(trust, b)
  {
    SameEntries(a.events, b.events);
    ReorderedEvents(trust, a, b);
    var ea, eb := Events(trust, a.runId, a.events), Events(trust, b.runId, b.events);
    IdsPermuted(ea, eb);
    forall cp | cp in CheckpointsOf(eb) ensures CheckpointHolds(trust, cp, eb) {
      CoverPermuted(ea, eb, cp.throughEventId);
      assert CheckpointHolds(trust, cp, ea);
    }
  }

  /** Reordering a tape around its checkpoint events changes neither acceptance nor what it resolves to. */
  lemma {:induction false} OrderOfEventsIsFree(trust: Trust, a: TapeExport, b: TapeExport, d: Declared)
    requires Reordered(trust, a, b)
    ensures TapeAccepted(trust, a) <==> TapeAccepted(trust, b)
    ensures TapeAccepted(trust, a) ==> Resolve(Verified(trust, a), d) == Resolve(Verified(trust, b), d)
  {
    if TapeAccepted(trust, b) { ReorderedAccepted(trust, b, a); }
    if TapeAccepted(trust, a) {
      ReorderedAccepted(trust, a, b);
      ReorderedEvents(trust, a, b);
      CoverPermuted(Events(trust, a.runId, a.events), Events(trust, b.runId, b.events), d.throughEventId);
    }
  }
}
