/** Exactly which heartbeat histories a claim may carry, stated on the recorded events. */
module HeartbeatRecords {
  import opened Seqs
  import opened Heartbeats

  /** A beat is one event's three times, as the clock reads them. */
  ghost predicate BeatRead(clock: Clock, h: NativeHeartbeat, b: Beat) {
    && clock(h.priorLeaseExpiresAt) == Some(b.prior) && clock(h.leaseExpiresAt) == Some(b.expiry)
    && clock(h.heartbeatAt) == Some(b.at)
  }

  /** The event names the claim, its lease and its dispatch, and carries both heartbeat marks or neither. */
  ghost predicate OfClaim(l: Lineage, h: NativeHeartbeat) {
    && h.claimEventId == l.claimEventRef && h.claimEventDigest == l.claimEventDigest && h.leaseId == l.leaseId
    && h.runId == l.runId && h.activityId == l.activityId && h.idempotencyKey == l.idempotencyKey
    && h.dispatchEventId == l.dispatchEventRef && h.dispatchEnvelopeDigest == l.dispatchEnvelopeDigest
    && h.heartbeatId.Some? == h.heartbeatRequestDigest.Some?
  }

  /** Beat `a` is made while the lease runs, carries it forward within the deadline, and follows beat `a - 1`. */
  ghost predicate BeatAt(clock: Clock, l: Lineage, entries: seq<NativeHeartbeat>, beats: seq<Beat>, a: nat) {
    && a < |entries| && a < |beats| && BeatRead(clock, entries[a], beats[a]) && OfClaim(l, entries[a])
    && l.claimedAt <= beats[a].at < beats[a].prior < beats[a].expiry <= l.deadline
    && (a > 0 ==> beats[a].prior == beats[a - 1].expiry && beats[a - 1].at < beats[a].at)
  }

  ghost predicate BeatsHold(clock: Clock, l: Lineage, entries: seq<NativeHeartbeat>, beats: seq<Beat>) {
    |beats| == |entries| && forall a :: 0 <= a < |entries| ==> BeatAt(clock, l, entries, beats, a)
  }

  ghost predicate EventsDistinct(entries: seq<NativeHeartbeat>) {
    forall a, b :: 0 <= a < b < |entries| ==> entries[a].eventId != entries[b].eventId
  }

  ghost function EventIds(entries: seq<NativeHeartbeat>): set<string> { set e | e in entries :: e.eventId }

  lemma {:induction false} IdsSplit(entries: seq<NativeHeartbeat>)
    requires entries != []
    ensures EventIds(entries) == EventIds(entries[..|entries| - 1]) + {entries[|entries| - 1].eventId}
    ensures EventsDistinct(entries) <==>
            EventsDistinct(entries[..|entries| - 1])
            && entries[|entries| - 1].eventId !in EventIds(entries[..|entries| - 1])
  {
    var n := |entries| - 1;
    var init := entries[..n];
    assert entries == init + [entries[n]];
    if EventsDistinct(entries) {
      forall a, b | 0 <= a < b < n ensures init[a].eventId != init[b].eventId {
        assert init[a] == entries[a] && init[b] == entries[b];
      }
      forall e | e in init ensures e.eventId != entries[n].eventId {
        var a :| 0 <= a < n && init[a] == e;
        assert entries[a] == e;
      }
    }
    if EventsDistinct(init) && entries[n].eventId !in EventIds(init) {
      forall a, b | 0 <= a < b < |entries| ensures entries[a].eventId != entries[b].eventId {
        assert init[a] == entries[a] && init[a] in init;
        if b < n { assert init[b] == entries[b]; }
      }
    }
  }

  lemma {:induction false} BeatsSplit(clock: Clock, l: Lineage, entries: seq<NativeHeartbeat>, beats: seq<Beat>)
    requires entries != [] && |beats| == |entries|
    ensures var n := |entries| - 1;
            BeatsHold(clock, l, entries, beats) <==>
            BeatsHold(clock, l, entries[..n], beats[..n]) && BeatAt(clock, l, entries, beats, n)
  {
    var n := |entries| - 1;
    forall a | 0 <= a < n
      ensures BeatAt(clock, l, entries, beats, a) <==> BeatAt(clock, l, entries[..n], beats[..n], a)
    {
      assert entries[..n][a] == entries[a] && beats[..n][a] == beats[a];
      if a > 0 { assert beats[..n][a - 1] == beats[a - 1]; }
    }
    if BeatsHold(clock, l, entries, beats) {
      forall a | 0 <= a < n ensures BeatAt(clock, l, entries[..n], beats[..n], a) {
        assert BeatAt(clock, l, entries, beats, a);
      }
    }
    if BeatsHold(clock, l, entries[..n], beats[..n]) && BeatAt(clock, l, entries, beats, n) {
      forall a | 0 <= a < |entries| ensures BeatAt(clock, l, entries, beats, a) {
        if a < n { assert BeatAt(clock, l, entries[..n], beats[..n], a); }
      }
    }
  }

  /** One more event is added exactly when it is the next beat and its event is new. */
  lemma {:induction false} AddedExactly(
      clock: Clock, l: Lineage, entries: seq<NativeHeartbeat>, seen: set<string>, before: seq<Beat>, beats: seq<Beat>)
    requires entries != [] && |before| == |entries| - 1 && |beats| == |entries| && beats[..|before|] == before
    ensures var n := |entries| - 1;
            AddBeat(clock, l, History(before, seen), entries[n]) == Some(History(beats, seen + {entries[n].eventId}))
            <==> BeatAt(clock, l, entries, beats, n) && entries[n].eventId !in seen
  {
    var n := |entries| - 1;
    assert beats == before + [beats[n]];
    if n > 0 { assert Last(before) == Some(beats[n - 1]); }
  }

  lemma {:induction false} ChainRead(clock: Clock, l: Lineage, entries: seq<NativeHeartbeat>, seen: set<string>)
    requires Chain(clock, l, entries, seen).Some?
    ensures var r := Chain(clock, l, entries, seen).value;
            && r.seen == seen + EventIds(entries) && BeatsHold(clock, l, entries, r.beats)
            && EventsDistinct(entries) && EventIds(entries) !! seen
  {
    if entries != [] {
      var n := |entries| - 1;
      ChainRead(clock, l, entries[..n], seen);
      var before := Chain(clock, l, entries[..n], seen).value;
      var r := Chain(clock, l, entries, seen).value;
      assert r.beats[..n] == before.beats;
      AddedExactly(clock, l, entries, before.seen, before.beats, r.beats);
      IdsSplit(entries);
      BeatsSplit(clock, l, entries, r.beats);
    }
  }

  lemma {:induction false} ChainAccepts(
      clock: Clock, l: Lineage, entries: seq<NativeHeartbeat>, seen: set<string>, beats: seq<Beat>)
    requires BeatsHold(clock, l, entries, beats) && EventsDistinct(entries) && EventIds(entries) !! seen
    ensures Chain(clock, l, entries, seen) == Some(History(beats, seen + EventIds(entries)))
  {
    if entries == [] {
      assert beats == [] && seen + EventIds(entries) == seen;
    } else {
      var n := |entries| - 1;
      IdsSplit(entries);
      BeatsSplit(clock, l, entries, beats);
      ChainAccepts(clock, l, entries[..n], seen, beats[..n]);
      AddedExactly(clock, l, entries, seen + EventIds(entries[..n]), beats[..n], beats);
      assert seen + EventIds(entries[..n]) + {entries[n].eventId} == seen + EventIds(entries);
    }
  }

  /** What a claim's heartbeats must be: absent, or beats of the claim of which the last ends at its lease expiry. */
  ghost predicate BeatsOfClaim(clock: Clock, l: Lineage, value: Option<seq<NativeHeartbeat>>, beats: seq<Beat>) {
    if value.None? then beats == []
    else
      && value.value != [] && BeatsHold(clock, l, value.value, beats)
      && beats[|beats| - 1].expiry == l.leaseExpiresAt
  }

  function Events(value: Option<seq<NativeHeartbeat>>): seq<NativeHeartbeat> { if value.None? then [] else value.value }

  /** A history is read exactly when its beats hold and its events are new and distinct; then those are its beats. */
  lemma {:induction false} HistoryMeaning(
      clock: Clock, l: Lineage, value: Option<seq<NativeHeartbeat>>, seen: set<string>, beats: seq<Beat>)
    ensures ReadHistory(clock, l, value, seen) == Some(History(beats, seen + EventIds(Events(value)))) <==>
            && BeatsOfClaim(clock, l, value, beats)
            && EventsDistinct(Events(value)) && EventIds(Events(value)) !! seen
    ensures ReadHistory(clock, l, value, seen).Some? ==>
              ReadHistory(clock, l, value, seen).value.seen == seen + EventIds(Events(value))
  {
    if value.None? {
      assert EventIds([]) == {};
      assert seen + EventIds(Events(value)) == seen;
    } else if value.value != [] {
      if Chain(clock, l, value.value, seen).Some? { ChainRead(clock, l, value.value, seen); }
      if BeatsOfClaim(clock, l, value, beats) && EventsDistinct(value.value) && EventIds(value.value) !! seen {
        ChainAccepts(clock, l, value.value, seen, beats);
      }
    }
  }
}
