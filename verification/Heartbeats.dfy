/** The lease heartbeat chain of a recovered activity claim (apps/cli/src/ledger-governed-dispatch-resolver.ts). */
module Heartbeats {
  import opened Seqs

  /** Timestamps are texts; the host reads a well-formed one as nanoseconds. */
  type Clock = string -> Option<int>

  datatype NativeHeartbeat = NativeHeartbeat(
    eventId: string,
    runId: string,
    activityId: string,
    idempotencyKey: string,
    heartbeatId: Option<string>,
    heartbeatRequestDigest: Option<string>,
    claimEventId: string,
    claimEventDigest: string,
    leaseId: string,
    dispatchEventId: string,
    dispatchEnvelopeDigest: string,
    priorLeaseExpiresAt: string,
    leaseExpiresAt: string,
    heartbeatAt: string)

  datatype Lineage = Lineage(
    claimEventRef: string,
    claimEventDigest: string,
    runId: string,
    activityId: string,
    idempotencyKey: string,
    leaseId: string,
    dispatchEventRef: string,
    dispatchEnvelopeDigest: string,
    claimedAt: int,
    leaseExpiresAt: int,
    deadline: int)

  /** One extension: made at `at`, while the lease ran to `prior`, and running it on to `expiry`. */
  datatype Beat = Beat(prior: int, expiry: int, at: int)

  datatype History = History(beats: seq<Beat>, seen: set<string>)

  predicate Bound(l: Lineage, h: NativeHeartbeat) {
    && (h.heartbeatId.Some? <==> h.heartbeatRequestDigest.Some?)
    && h.runId == l.runId && h.activityId == l.activityId && h.idempotencyKey == l.idempotencyKey
    && h.claimEventId == l.claimEventRef && h.claimEventDigest == l.claimEventDigest && h.leaseId == l.leaseId
    && h.dispatchEventId == l.dispatchEventRef && h.dispatchEnvelopeDigest == l.dispatchEnvelopeDigest
  }

  function ReadBeat(clock: Clock, h: NativeHeartbeat): Option<Beat> {
    var prior :- clock(h.priorLeaseExpiresAt);
    var expiry :- clock(h.leaseExpiresAt);
    var at :- clock(h.heartbeatAt);
    Some(Beat(prior, expiry, at))
  }

  /** A beat extends the lease forward, before it lapses, within the deadline and after the previous beat. */
  predicate Extends(l: Lineage, previous: Option<Beat>, b: Beat) {
    && b.prior > l.claimedAt && b.at >= l.claimedAt && b.at < b.prior && b.expiry > b.prior && b.expiry <= l.deadline
    && (previous.Some? ==> b.prior == previous.value.expiry && b.at > previous.value.at)
  }

  function Last(beats: seq<Beat>): Option<Beat> { if beats == [] then None else Some(beats[|beats| - 1]) }

  function ExpiryOf(b: Option<Beat>): Option<int> { if b.None? then None else Some(b.value.expiry) }

  function TimeOf(b: Option<Beat>): Option<int> { if b.None? then None else Some(b.value.at) }

  /** The loop's test, on the two values it carries from the previous beat. */
  predicate Forward(l: Lineage, previousExpiry: Option<int>, previousHeartbeatAt: Option<int>, b: Beat) {
    !(|| b.prior <= l.claimedAt || b.at < l.claimedAt || b.at >= b.prior || b.expiry <= b.prior || b.expiry > l.deadline
      || (previousExpiry.Some? && b.prior != previousExpiry.value)
      || (previousHeartbeatAt.Some? && b.at <= previousHeartbeatAt.value))
  }

  function AddBeat(clock: Clock, l: Lineage, before: History, h: NativeHeartbeat): Option<History> {
    var b :- ReadBeat(clock, h);
    if h.eventId in before.seen || !Bound(l, h) || !Extends(l, Last(before.beats), b) then None
    else Some(History(before.beats + [b], before.seen + {h.eventId}))
  }

  function Chain(clock: Clock, l: Lineage, entries: seq<NativeHeartbeat>, seen: set<string>): Option<History> {
    if entries == [] then Some(History([], seen))
    else
      var before :- Chain(clock, l, entries[..|entries| - 1], seen);
      AddBeat(clock, l, before, entries[|entries| - 1])
  }

  /** The whole history: absent, or a non-empty chain that ends at the claim's lease expiry. */
  function ReadHistory(
      clock: Clock, l: Lineage, value: Option<seq<NativeHeartbeat>>, seen: set<string>): Option<History>
  {
    if value.None? then Some(History([], seen))
    else if value.value == [] then None
    else
      var r :- Chain(clock, l, value.value, seen);
      var last :- Last(r.beats);
      if last.expiry == l.leaseExpiresAt then Some(r) else None
  }

  lemma {:induction false} ChainFails(
      clock: Clock, l: Lineage, entries: seq<NativeHeartbeat>, seen: set<string>, i: nat)
    requires i <= |entries| && Chain(clock, l, entries[..i], seen).None?
    ensures Chain(clock, l, entries, seen).None?
  {
    if i < |entries| {
      assert entries[..|entries| - 1][..i] == entries[..i];
      ChainFails(clock, l, entries[..|entries| - 1], seen, i);
    } else {
      assert entries[..i] == entries;
    }
  }

  lemma {:induction false} ChainStep(clock: Clock, l: Lineage, entries: seq<NativeHeartbeat>, seen: set<string>, i: nat)
    requires i < |entries| && Chain(clock, l, entries[..i], seen).Some?
    ensures Chain(clock, l, entries[..i + 1], seen)
            == AddBeat(clock, l, Chain(clock, l, entries[..i], seen).value, entries[i])
  {
    assert entries[..i + 1][..i] == entries[..i];
  }

  method ReadChain(clock: Clock, l: Lineage, entries: seq<NativeHeartbeat>, seen: set<string>)
    returns (ok: bool, seen': set<string>, previousExpiry: Option<int>)
    ensures ok <==> Chain(clock, l, entries, seen).Some?
    ensures ok ==> seen' == Chain(clock, l, entries, seen).value.seen
    ensures ok ==> previousExpiry == ExpiryOf(Last(Chain(clock, l, entries, seen).value.beats))
  {
    seen', previousExpiry := seen, None;
    var previousHeartbeatAt: Option<int> := None;
    ghost var history := History([], seen);
    for i := 0 to |entries|
      invariant Chain(clock, l, entries[..i], seen) == Some(history) && seen' == history.seen
      invariant previousExpiry == ExpiryOf(Last(history.beats)) && previousHeartbeatAt == TimeOf(Last(history.beats))
    {
      var h := entries[i];
      ChainStep(clock, l, entries, seen, i);
      var b := ReadBeat(clock, h);
      if b.None? || h.eventId in seen' || !Bound(l, h) || !Forward(l, previousExpiry, previousHeartbeatAt, b.value) {
        ChainFails(clock, l, entries, seen, i + 1);
        return false, seen', None;
      }
      seen' := seen' + {h.eventId};
      history := History(history.beats + [b.value], seen');
      previousExpiry, previousHeartbeatAt := Some(b.value.expiry), Some(b.value.at);
    }
    assert entries[..|entries|] == entries;
    return true, seen', previousExpiry;
  }

  /** parseNativeActivityClaimHeartbeats; the set of seen event refs is shared across claims. */
  method ParseNativeActivityClaimHeartbeats(
      clock: Clock, value: Option<seq<NativeHeartbeat>>, l: Lineage, seen: set<string>)
    returns (ok: bool, seen': set<string>)
    ensures ok <==> ReadHistory(clock, l, value, seen).Some?
    ensures ok ==> seen' == ReadHistory(clock, l, value, seen).value.seen
  {
    if value.None? {
      return true, seen;
    }
    if |value.value| == 0 {
      return false, seen;
    }
    var previousExpiry;
    ok, seen', previousExpiry := ReadChain(clock, l, value.value, seen);
    ok := ok && previousExpiry == Some(l.leaseExpiresAt);
  }

  // ------------------------------------------------------------- the theorem

  /** Each beat extends the one before it. */
  ghost predicate Linked(l: Lineage, beats: seq<Beat>) {
    forall k :: 0 <= k < |beats| ==> Extends(l, Last(beats[..k]), beats[k])
  }

  lemma {:induction false} ChainLinked(clock: Clock, l: Lineage, entries: seq<NativeHeartbeat>, seen: set<string>)
    requires Chain(clock, l, entries, seen).Some?
    ensures |Chain(clock, l, entries, seen).value.beats| == |entries|
    ensures Linked(l, Chain(clock, l, entries, seen).value.beats)
  {
    if entries != [] {
      var n := |entries| - 1;
      ChainLinked(clock, l, entries[..n], seen);
      var before := Chain(clock, l, entries[..n], seen).value.beats;
      var beats := Chain(clock, l, entries, seen).value.beats;
      assert beats[..n] == before;
      forall k | 0 <= k < |beats| ensures Extends(l, Last(beats[..k]), beats[k]) {
        if k < n { assert beats[..k] == before[..k]; }
      }
    }
  }

  lemma {:induction false} NextBeat(l: Lineage, beats: seq<Beat>, k: nat)
    requires Linked(l, beats) && k + 1 < |beats|
    ensures beats[k + 1].prior == beats[k].expiry && beats[k + 1].at > beats[k].at
    ensures beats[k + 1].expiry > beats[k].expiry
  {
    assert Extends(l, Last(beats[..k + 1]), beats[k + 1]);
  }

  /** Expiries and heartbeat times strictly increase. */
  lemma {:induction false} BeatsIncrease(l: Lineage, beats: seq<Beat>, j: nat, k: nat)
    requires Linked(l, beats) && j < k < |beats|
    ensures beats[j].expiry < beats[k].expiry && beats[j].at < beats[k].at
    decreases k - j
  {
    NextBeat(l, beats, k - 1);
    if j < k - 1 { BeatsIncrease(l, beats, j, k - 1); }
  }

  /** Some grant, the claim's own or a beat's, was made no later than `x` and still ran at `x`. */
  ghost predicate Covered(l: Lineage, beats: seq<Beat>, x: int)
    requires beats != []
  {
    (l.claimedAt <= x < beats[0].prior) || exists k :: 0 <= k < |beats| && beats[k].at <= x < beats[k].expiry
  }

  lemma {:induction false} CoveredUpTo(l: Lineage, beats: seq<Beat>, k: nat, x: int)
    requires Linked(l, beats) && k < |beats| && l.claimedAt <= x < beats[k].expiry
    ensures Covered(l, beats, x)
  {
    assert Extends(l, Last(beats[..k]), beats[k]);
    if x < beats[k].prior && k > 0 {
      NextBeat(l, beats, k - 1);
      CoveredUpTo(l, beats, k - 1, x);
    }
  }

  lemma {:induction false} ExpiryGrows(l: Lineage, beats: seq<Beat>, k: nat)
    requires Linked(l, beats) && k < |beats|
    ensures beats[k].expiry >= l.claimedAt + 2 + k
  {
    assert Extends(l, Last(beats[..k]), beats[k]);
    if k > 0 {
      NextBeat(l, beats, k - 1);
      ExpiryGrows(l, beats, k - 1);
    }
  }

  /**
   * An accepted non-empty history: expiries and times increase, no instant from the claim to the final
   * expiry is without a grant made by then, the final expiry is the claim's and within the deadline, and
   * the number of heartbeats is bounded by the nanoseconds between claim and deadline.
   */
  lemma {:induction false} HistoryHolds(clock: Clock, l: Lineage, entries: seq<NativeHeartbeat>, seen: set<string>)
    requires ReadHistory(clock, l, Some(entries), seen).Some?
    ensures var beats := ReadHistory(clock, l, Some(entries), seen).value.beats;
            && |beats| == |entries| > 0
            && (forall j, k :: 0 <= j < k < |beats| ==> beats[j].expiry < beats[k].expiry && beats[j].at < beats[k].at)
            && (forall x :: l.claimedAt <= x < l.leaseExpiresAt ==> Covered(l, beats, x))
            && beats[|beats| - 1].expiry == l.leaseExpiresAt <= l.deadline
            && |beats| <= l.deadline - l.claimedAt - 1
  {
    ChainLinked(clock, l, entries, seen);
    var beats := Chain(clock, l, entries, seen).value.beats;
    var n := |beats| - 1;
    assert Extends(l, Last(beats[..n]), beats[n]);
    forall j, k | 0 <= j < k < |beats| ensures beats[j].expiry < beats[k].expiry && beats[j].at < beats[k].at {
      BeatsIncrease(l, beats, j, k);
    }
    forall x | l.claimedAt <= x < l.leaseExpiresAt ensures Covered(l, beats, x) { CoveredUpTo(l, beats, n, x); }
    ExpiryGrows(l, beats, n);
  }
}
