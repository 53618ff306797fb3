/** Parsing a pinned release policy (eval/trust-spine-release-gate-cli.ts). */
module CampaignPolicy {
  import opened Seqs
  import opened Campaign
  import G = ReleaseGate
  import D = ReleaseDecision
  import opened ReleaseMeaning
  import opened ReleaseRefusals

  const REQUIRED_GA_PROVIDER := "anthropic"
  const MINIMUM_GA_TASKS_PER_GROUP := 30
  const MAXIMUM_GA_CAPABILITY_REGRESSION := 0.05

  datatype PolicySource = PolicySource(
    expectedProviders: seq<string>,
    expectedTrustTiers: seq<string>,
    targetRef: string,
    minimumTasksPerGroup: int,
    maxCapabilityRegression: real,
    baselineByGroup: OrderedMap<string, D.Baseline>,
    requiredCheckNames: seq<string>)

  ghost predicate Names(values: seq<string>) { values != [] && "" !in values && Distinct(values) }

  /** getStringArray. */
  method GetStringArray(values: seq<string>) returns (ok: bool)
    ensures ok <==> Names(values)
  {
    if |values| == 0 {
      return false;
    }
    var seen: set<string> := {};
    for i := 0 to |values|
      invariant seen == ToSet(values[..i])
      invariant "" !in values[..i] && Distinct(values[..i])
    {
      if |values[i]| == 0 {
        assert values[i] in values;
        return false;
      }
      if values[i] in seen {
        var j :| 0 <= j < i && values[j] == values[i];
        return false;
      }
      assert values[..i + 1] == values[..i] + [values[i]];
      seen := seen + {values[i]};
    }
    assert values[..|values|] == values;
    return true;
  }

  ghost function ExpectedGroups(ps: seq<string>, ts: seq<string>): set<string> {
    set pair | pair in D.Pairs(ps, ts) :: G.GroupKey(pair.0, pair.1)
  }

  method CollectExpectedGroups(ps: seq<string>, ts: seq<string>) returns (groups: set<string>)
    ensures groups == ExpectedGroups(ps, ts)
  {
    groups := {};
    for i := 0 to |ps|
      invariant groups == ExpectedGroups(ps[..i], ts)
    {
      ghost var before := D.Pairs(ps[..i], ts);
      assert before + D.Row(ps[i], ts[..0]) == before;
      for j := 0 to |ts|
        invariant groups == set pair | pair in before + D.Row(ps[i], ts[..j]) :: G.GroupKey(pair.0, pair.1)
      {
        groups := groups + {G.GroupKey(ps[i], ts[j])};
        assert ts[..j + 1][..j] == ts[..j];
        assert before + D.Row(ps[i], ts[..j + 1]) == before + D.Row(ps[i], ts[..j]) + [(ps[i], ts[j])];
      }
      assert ts[..|ts|] == ts && ps[..i + 1][..i] == ps[..i];
    }
    assert ps[..|ps|] == ps;
  }

  ghost predicate ValidBaselines(m: map<string, D.Baseline>) { forall k :: k in m ==> D.ValidBaseline(m[k]) }

  /** parseBaselines: equal counts and known names already leave no group without a baseline. */
  method ParseBaselines(record: OrderedMap<string, D.Baseline>, expected: set<string>)
    returns (r: Option<map<string, D.Baseline>>)
    requires WellKeyed(record)
    ensures r.Some? <==> record.at.Keys == expected && ValidBaselines(record.at)
    ensures r.Some? ==> r.value == record.at
  {
    DistinctCount(record.keys);
    if |record.keys| != |expected| {
      return None;
    }
    var baselines: map<string, D.Baseline> := map[];
    for i := 0 to |record.keys|
      invariant baselines.Keys == ToSet(record.keys[..i]) && baselines.Keys <= expected
      invariant forall k :: k in baselines ==>
                  k in record.at && baselines[k] == record.at[k] && D.ValidBaseline(baselines[k])
    {
      var group := record.keys[i];
      assert group in ToSet(record.keys);
      if group !in expected || !D.ValidBaseline(record.at[group]) {
        return None;
      }
      assert record.keys[..i + 1] == record.keys[..i] + [group];
      baselines := baselines[group := record.at[group]];
    }
    assert record.keys[..|record.keys|] == record.keys;
    SubsetCount(expected - baselines.Keys, expected);
    assert expected == baselines.Keys + (expected - baselines.Keys);
    assert baselines == record.at;
    if exists g :: g in expected && g !in baselines {
      return None;
    }
    return Some(baselines);
  }

  ghost predicate PolicyAccepted(p: Policy) {
    && Names(p.expectedProviders) && Names(p.expectedTrustTiers) && Names(p.requiredCheckNames)
    && REQUIRED_GA_PROVIDER in p.expectedProviders
    && (forall x :: x in p.expectedProviders ==> SlashFree(x))
    && (forall x :: x in p.expectedTrustTiers ==> SlashFree(x))
    && p.minimumTasksPerGroup >= MINIMUM_GA_TASKS_PER_GROUP
    && 0.0 <= p.maxCapabilityRegression <= MAXIMUM_GA_CAPABILITY_REGRESSION
    && p.baselineByGroup.Keys == ExpectedGroups(p.expectedProviders, p.expectedTrustTiers)
    && ValidBaselines(p.baselineByGroup)
  }

  function PolicyOf(s: PolicySource): Policy {
    Policy(s.expectedProviders, s.expectedTrustTiers, s.targetRef, s.minimumTasksPerGroup, s.maxCapabilityRegression,
           s.baselineByGroup.at, s.requiredCheckNames)
  }

  method NoSlash(values: seq<string>) returns (ok: bool)
    ensures ok <==> forall x :: x in values ==> SlashFree(x)
  {
    for i := 0 to |values|
      invariant forall j :: 0 <= j < i ==> SlashFree(values[j])
    {
      if '/' in values[i] {
        assert values[i] in values;
        return false;
      }
    }
    return true;
  }

  /** parseReleasePolicy. */
  method ParseReleasePolicy(s: PolicySource) returns (r: Option<Policy>)
    requires WellKeyed(s.baselineByGroup)
    ensures r.Some? <==> PolicyAccepted(PolicyOf(s))
    ensures r.Some? ==> r.value == PolicyOf(s)
  {
    var ps := GetStringArray(s.expectedProviders);
    var ts := GetStringArray(s.expectedTrustTiers);
    if !ps || !ts || REQUIRED_GA_PROVIDER !in s.expectedProviders {
      return None;
    }
    var plainProviders := NoSlash(s.expectedProviders);
    var plainTiers := NoSlash(s.expectedTrustTiers);
    if !plainProviders || !plainTiers || s.minimumTasksPerGroup < MINIMUM_GA_TASKS_PER_GROUP
       || s.maxCapabilityRegression < 0.0 || s.maxCapabilityRegression > MAXIMUM_GA_CAPABILITY_REGRESSION {
      return None;
    }
    var expected := CollectExpectedGroups(s.expectedProviders, s.expectedTrustTiers);
    var baselines :- ParseBaselines(s.baselineByGroup, expected);
    var checks := GetStringArray(s.requiredCheckNames);
    if !checks {
      return None;
    }
    return Some(Policy(s.expectedProviders, s.expectedTrustTiers, s.targetRef, s.minimumTasksPerGroup,
                       s.maxCapabilityRegression, baselines, s.requiredCheckNames));
  }

  /** A list that names things: not empty, no empty name, none twice. */
  ghost predicate Lists(values: seq<string>) {
    && |values| > 0 && (forall i :: 0 <= i < |values| ==> |values[i]| > 0)
    && forall i, j :: 0 <= j < i < |values| ==> values[j] != values[i]
  }

  /** The accepted policies, written out. */
  ghost predicate PolicyInRange(p: Policy) {
    && Lists(p.expectedProviders) && Lists(p.expectedTrustTiers) && Lists(p.requiredCheckNames)
    && "anthropic" in p.expectedProviders && p.minimumTasksPerGroup >= 30
    && (forall x :: x in p.expectedProviders || x in p.expectedTrustTiers ==> '/' !in x)
    && 0.0 <= p.maxCapabilityRegression <= 0.05
    && (forall k :: k in p.baselineByGroup <==> PairNames(p, k))
    && forall b :: b in p.baselineByGroup.Values ==> Shares(b)
  }

  ghost predicate PairNames(p: Policy, key: string) {
    exists x, y :: x in p.expectedProviders && y in p.expectedTrustTiers && key == x + "/" + y
  }

  lemma {:induction false} ListsExactly(values: seq<string>)
    ensures Names(values) <==> Lists(values)
  {
    if Lists(values) {
      forall x | x in values ensures x != "" { var i :| 0 <= i < |values| && values[i] == x; }
    }
    if Names(values) {
      forall i | 0 <= i < |values| ensures |values[i]| > 0 { assert values[i] in values; }
    }
  }

  lemma {:induction false} GroupsExactly(p: Policy, key: string)
    ensures key in ExpectedGroups(p.expectedProviders, p.expectedTrustTiers) <==> PairNames(p, key)
  {
    var pairs := D.Pairs(p.expectedProviders, p.expectedTrustTiers);
    if key in ExpectedGroups(p.expectedProviders, p.expectedTrustTiers) {
      var pair :| pair in pairs && G.GroupKey(pair.0, pair.1) == key;
      D.PairMembers(p.expectedProviders, p.expectedTrustTiers, pair.0, pair.1);
      assert key == pair.0 + "/" + pair.1;
    }
    if x, y :| x in p.expectedProviders && y in p.expectedTrustTiers && key == x + "/" + y {
      D.PairMembers(p.expectedProviders, p.expectedTrustTiers, x, y);
      assert (x, y) in pairs && G.GroupKey(x, y) == key;
    }
  }

  lemma {:induction false} BaselinesInRange(baselines: map<string, D.Baseline>)
    ensures ValidBaselines(baselines) <==> forall b :: b in baselines.Values ==> Shares(b)
  {
    if ValidBaselines(baselines) {
      forall b | b in baselines.Values ensures Shares(b) { var k :| k in baselines && baselines[k] == b; }
    }
    if forall b :: b in baselines.Values ==> Shares(b) {
      forall k | k in baselines ensures D.ValidBaseline(baselines[k]) { assert baselines[k] in baselines.Values; }
    }
  }

  /** A policy is accepted exactly when it is one of those. */
  lemma {:induction false} PolicyExactly(p: Policy)
    ensures PolicyAccepted(p) <==> PolicyInRange(p)
  {
    ListsExactly(p.expectedProviders);
    ListsExactly(p.expectedTrustTiers);
    ListsExactly(p.requiredCheckNames);
    BaselinesInRange(p.baselineByGroup);
    forall k ensures k in ExpectedGroups(p.expectedProviders, p.expectedTrustTiers) <==> PairNames(p, k) {
      GroupsExactly(p, k);
    }
  }

  /** An accepted policy never makes the gate refuse its input. */
  lemma {:induction false} PolicyInputValid(p: Policy, immutable: bool, compatible: bool, unresolved: seq<string>)
    requires PolicyAccepted(p)
    ensures D.ValidInput(D.GateInput(p.expectedProviders, p.expectedTrustTiers, p.minimumTasksPerGroup, immutable,
                                     compatible, unresolved, None, p.baselineByGroup, Some(p.maxCapabilityRegression)))
  {
  }
}
