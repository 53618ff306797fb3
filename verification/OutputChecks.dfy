/**
 * normalizeActionResult: output checks become digests, sorted and without repeats (apps/cli/src/governed-command-
 * evidence-store.ts).
 */
module OutputChecks {
  import opened Seqs

  const MAX_OUTPUT_CHECKS := 4096
  const MAX_TOTAL_OUTPUT_PATH_BYTES := 1024 * 1024

  datatype OutputCheck = OutputCheck(path: string, present: bool)

  datatype SafeCheck = SafeCheck(pathDigest: string, present: bool)

  /** The host's view of a path: whether it is a permitted bounded string, its UTF-8 length and its digest. */
  datatype PathHost = PathHost(permitted: string -> bool, byteLength: string -> nat, digest: string -> string)

  function DigestOf(c: SafeCheck): string { c.pathDigest }

  function Safe(h: PathHost): OutputCheck -> SafeCheck { (c: OutputCheck) => SafeCheck(h.digest(c.path), c.present) }

  function TotalBytes(h: PathHost, checks: seq<OutputCheck>): nat {
    if checks == [] then 0 else TotalBytes(h, checks[..|checks| - 1]) + h.byteLength(checks[|checks| - 1].path)
  }

  ghost predicate AllPermitted(h: PathHost, checks: seq<OutputCheck>) {
    forall c :: c in checks ==> h.permitted(c.path)
  }

  ghost predicate DigestsDistinct(checks: seq<SafeCheck>) {
    forall i, j :: 0 <= i < j < |checks| ==> checks[i].pathDigest != checks[j].pathDigest
  }

  /** What the source accepts: few enough permitted paths, short enough together, no two with one digest. */
  ghost predicate ChecksAccepted(h: PathHost, checks: seq<OutputCheck>) {
    && |checks| <= MAX_OUTPUT_CHECKS && AllPermitted(h, checks)
    && TotalBytes(h, checks) <= MAX_TOTAL_OUTPUT_PATH_BYTES
    && DigestsDistinct(MapSeq(Safe(h), checks))
  }

  function Sorted(h: PathHost, checks: seq<OutputCheck>): seq<SafeCheck> {
    Sort(DigestOf, StrLe, MapSeq(Safe(h), checks))
  }

  lemma {:induction false} BytesGrow(h: PathHost, checks: seq<OutputCheck>, i: nat)
    requires i <= |checks|
    ensures TotalBytes(h, checks[..i]) <= TotalBytes(h, checks)
    decreases |checks|
  {
    if i < |checks| {
      BytesGrow(h, checks[..|checks| - 1], i);
      assert checks[..|checks| - 1][..i] == checks[..i];
    } else {
      assert checks[..i] == checks;
    }
  }

  method DigestChecks(h: PathHost, checks: seq<OutputCheck>) returns (r: Option<seq<SafeCheck>>)
    ensures r.Some? <==> AllPermitted(h, checks) && TotalBytes(h, checks) <= MAX_TOTAL_OUTPUT_PATH_BYTES
    ensures r.Some? ==> r.value == MapSeq(Safe(h), checks)
  {
    var outputPathBytes := 0;
    var safe: seq<SafeCheck> := [];
    for i := 0 to |checks|
      invariant AllPermitted(h, checks[..i]) && outputPathBytes == TotalBytes(h, checks[..i])
      invariant outputPathBytes <= MAX_TOTAL_OUTPUT_PATH_BYTES && safe == MapSeq(Safe(h), checks[..i])
    {
      assert checks[..i + 1][..i] == checks[..i];
      if !h.permitted(checks[i].path) {
        assert checks[i] in checks;
        return None;
      }
      outputPathBytes := outputPathBytes + h.byteLength(checks[i].path);
      if outputPathBytes > MAX_TOTAL_OUTPUT_PATH_BYTES {
        BytesGrow(h, checks, i + 1);
        return None;
      }
      safe := safe + [SafeCheck(h.digest(checks[i].path), checks[i].present)];
    }
    assert checks[..|checks|] == checks;
    return Some(safe);
  }

  /** Comparing neighbours of a sorted list finds every repeated digest. */
  method NoRepeat(sorted: seq<SafeCheck>) returns (ok: bool)
    requires SortedBy(DigestOf, StrLe, sorted)
    ensures ok <==> DigestsDistinct(sorted)
  {
    var i := 1;
    while i < |sorted|
      invariant 1 <= i
      invariant forall j :: 1 <= j < i && j < |sorted| ==> sorted[j - 1].pathDigest != sorted[j].pathDigest
    {
      if sorted[i - 1].pathDigest == sorted[i].pathDigest {
        return false;
      }
      i := i + 1;
    }
    NeighboursDiffer(sorted);
    return true;
  }

  lemma {:induction false} NeighboursDiffer(sorted: seq<SafeCheck>)
    requires SortedBy(DigestOf, StrLe, sorted)
    requires forall j :: 1 <= j < |sorted| ==> sorted[j - 1].pathDigest != sorted[j].pathDigest
    ensures DigestsDistinct(sorted)
  {
    forall i, j | 0 <= i < j < |sorted| ensures sorted[i].pathDigest != sorted[j].pathDigest {
      var a, b, c := sorted[i].pathDigest, sorted[i + 1].pathDigest, sorted[j].pathDigest;
      assert sorted[i + 1 - 1].pathDigest != b;
      assert StrLe(DigestOf(sorted[i]), DigestOf(sorted[i + 1]));
      assert i + 1 < j ==> StrLe(DigestOf(sorted[i + 1]), DigestOf(sorted[j]));
      if a == c && i + 1 < j { LexAntisymmetric(CharRank, a, b); }
    }
  }

  lemma {:induction false} RepeatedTwice(s: seq<SafeCheck>, i: nat, j: nat)
    requires i < j < |s| && s[i] == s[j]
    ensures multiset(s)[s[i]] >= 2
  {
    assert s == s[..j] + [s[j]] + s[j + 1..];
    assert s[i] in s[..j];
  }

  lemma {:induction false} OneDigestEach(s: seq<SafeCheck>)
    requires DigestsDistinct(s)
    ensures Distinct(s) && KeysIdentify(DigestOf, s)
  {
    forall x, y | x in s && y in s && DigestOf(x) == DigestOf(y) ensures x == y {
      var i :| 0 <= i < |s| && s[i] == x;
      var j :| 0 <= j < |s| && s[j] == y;
    }
  }

  lemma {:induction false} DistinctPermuted(s: seq<SafeCheck>, t: seq<SafeCheck>)
    requires multiset(s) == multiset(t) && DigestsDistinct(s)
    ensures DigestsDistinct(t)
  {
    OneDigestEach(s);
    forall i, j | 0 <= i < j < |t| ensures t[i].pathDigest != t[j].pathDigest {
      assert t[i] in multiset(s) && t[j] in multiset(s);
      if t[i] == t[j] {
        RepeatedTwice(t, i, j);
        DistinctOnce(s, t[i]);
      }
    }
  }

  lemma {:induction false} SortedDistinct(s: seq<SafeCheck>)
    ensures DigestsDistinct(Sort(DigestOf, StrLe, s)) <==> DigestsDistinct(s)
  {
    SortPermutes(DigestOf, StrLe, s);
    var t := Sort(DigestOf, StrLe, s);
    if DigestsDistinct(s) { DistinctPermuted(s, t); }
    if DigestsDistinct(t) { DistinctPermuted(t, s); }
  }

  /** The output-check part of normalizeActionResult. */
  method NormalizeOutputChecks(h: PathHost, checks: seq<OutputCheck>) returns (r: Option<seq<SafeCheck>>)
    ensures r.Some? <==> ChecksAccepted(h, checks)
    ensures r.Some? ==> r.value == Sorted(h, checks)
  {
    if |checks| > MAX_OUTPUT_CHECKS {
      return None;
    }
    var safe :- DigestChecks(h, checks);
    var sorted := Sort(DigestOf, StrLe, safe);
    StrTotalOrder();
    SortSorted(DigestOf, StrLe, safe);
    SortedDistinct(safe);
    var ok := NoRepeat(sorted);
    return if ok then Some(sorted) else None;
  }

  lemma {:induction false} BytesRemoved(h: PathHost, s: seq<OutputCheck>, i: nat)
    requires i < |s|
    ensures TotalBytes(h, s) == TotalBytes(h, s[..i] + s[i + 1..]) + h.byteLength(s[i].path)
  {
    var n := |s| - 1;
    var r := s[..i] + s[i + 1..];
    if i == n {
      assert r == s[..n];
    } else {
      BytesRemoved(h, s[..n], i);
      assert r[..|r| - 1] == s[..n][..i] + s[..n][i + 1..];
    }
  }

  lemma {:induction false} BytesPermuted(h: PathHost, s: seq<OutputCheck>, t: seq<OutputCheck>)
    requires multiset(s) == multiset(t)
    ensures TotalBytes(h, s) == TotalBytes(h, t)
    decreases |s|
  {
    assert |multiset(s)| == |multiset(t)|;
    if s != [] {
      var n := |s| - 1;
      assert s[n] in multiset(t);
      var i :| 0 <= i < |t| && t[i] == s[n];
      RemovedAt(s, n);
      RemovedAt(t, i);
      BytesRemoved(h, s, n);
      BytesRemoved(h, t, i);
      BytesPermuted(h, s[..n] + s[n + 1..], t[..i] + t[i + 1..]);
    }
  }

  lemma {:induction false} AcceptedPermuted(h: PathHost, s: seq<OutputCheck>, t: seq<OutputCheck>)
    requires multiset(s) == multiset(t) && ChecksAccepted(h, s)
    ensures ChecksAccepted(h, t)
  {
    assert |multiset(s)| == |multiset(t)|;
    forall c | c in t ensures h.permitted(c.path) { assert c in multiset(s); }
    BytesPermuted(h, s, t);
    MapPermuted(Safe(h), s, t);
    DistinctPermuted(MapSeq(Safe(h), s), MapSeq(Safe(h), t));
  }

  /** The order in which a caller lists its output checks never matters, even if two path digests collide. */
  lemma {:induction false} CheckOrderIgnored(h: PathHost, s: seq<OutputCheck>, t: seq<OutputCheck>)
    requires multiset(s) == multiset(t)
    ensures ChecksAccepted(h, s) <==> ChecksAccepted(h, t)
    ensures ChecksAccepted(h, s) ==> Sorted(h, s) == Sorted(h, t)
  {
    if ChecksAccepted(h, t) { AcceptedPermuted(h, t, s); }
    if ChecksAccepted(h, s) {
      AcceptedPermuted(h, s, t);
      MapPermuted(Safe(h), s, t);
      OneDigestEach(MapSeq(Safe(h), s));
      StrTotalOrder();
      SortOfPermutation(DigestOf, StrLe, MapSeq(Safe(h), s), MapSeq(Safe(h), t));
    }
  }

  /** A path's digest and presence, as one caller listed them, stand somewhere in the result. */
  ghost predicate Listed(h: PathHost, checks: seq<OutputCheck>, x: SafeCheck) {
    exists c :: c in checks && x.pathDigest == h.digest(c.path) && x.present == c.present
  }

  lemma {:induction false} SafeMembers(h: PathHost, checks: seq<OutputCheck>, x: SafeCheck)
    ensures x in MapSeq(Safe(h), checks) <==> Listed(h, checks, x)
  {
    var safe := MapSeq(Safe(h), checks);
    if x in safe {
      var i :| 0 <= i < |safe| && safe[i] == x;
      MapAt(Safe(h), checks, i);
      assert checks[i] in checks;
    }
    if c :| c in checks && x.pathDigest == h.digest(c.path) && x.present == c.present {
      var i :| 0 <= i < |checks| && checks[i] == c;
      MapAt(Safe(h), checks, i);
    }
  }

  lemma {:induction false} SortedHolds(h: PathHost, checks: seq<OutputCheck>, x: SafeCheck)
    ensures x in Sorted(h, checks) <==> Listed(h, checks, x)
  {
    var safe := MapSeq(Safe(h), checks);
    SafeMembers(h, checks, x);
    SortPermutes(DigestOf, StrLe, safe);
    assert x in multiset(safe) <==> x in multiset(Sorted(h, checks));
  }

  /**
   * Accepted checks become as many digests, each with the presence listed for its path, in ascending order of their
   * characters and without a repeat.
   */
  lemma {:induction false} NormalizedMeaning(h: PathHost, checks: seq<OutputCheck>)
    requires ChecksAccepted(h, checks)
    ensures |Sorted(h, checks)| == |checks|
    ensures forall x :: x in Sorted(h, checks) <==> Listed(h, checks, x)
    ensures forall i, j :: 0 <= i < j < |checks| ==>
              StrBelow(Sorted(h, checks)[i].pathDigest, Sorted(h, checks)[j].pathDigest)
  {
    var safe, sorted := MapSeq(Safe(h), checks), Sorted(h, checks);
    SortPermutes(DigestOf, StrLe, safe);
    assert |multiset(sorted)| == |multiset(safe)|;
    StrTotalOrder();
    SortSorted(DigestOf, StrLe, safe);
    SortedDistinct(safe);
    forall x ensures x in sorted <==> Listed(h, checks, x) { SortedHolds(h, checks, x); }
    forall i, j | 0 <= i < j < |checks| ensures StrBelow(sorted[i].pathDigest, sorted[j].pathDigest) {
      assert StrLe(DigestOf(sorted[i]), DigestOf(sorted[j]));
      StrLeMeaning(sorted[i].pathDigest, sorted[j].pathDigest);
    }
  }
}
