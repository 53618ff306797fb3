/** Sequences, sorting by a key, and counting: facts the other modules share. */
module Seqs {

  datatype Option<+T> = None | Some(value: T) {
    predicate IsFailure() { None? }

    function PropagateFailure<U>(): Option<U>
      requires None?
    {
      None
    }

    function Extract(): T
      requires Some?
    {
      value
    }
  }

  // ---------------------------------------------------------------- orders

  /** Any two elements compare, and comparison is transitive; distinct elements may tie. */
  ghost predicate TotalPreorder<K(!new)>(le: (K, K) -> bool) {
    && (forall a, b :: le(a, b) || le(b, a))
    && (forall a, b, c :: le(a, b) && le(b, c) ==> le(a, c))
  }

  ghost predicate TotalOrder<K(!new)>(le: (K, K) -> bool) {
    TotalPreorder(le) && forall a, b :: le(a, b) && le(b, a) ==> a == b
  }

  /** Lexicographic comparison of two sequences whose elements are compared by rank. */
  predicate LexLe<T>(rank: T -> int, a: seq<T>, b: seq<T>) {
    if a == [] then true
    else if b == [] then false
    else if rank(a[0]) != rank(b[0]) then rank(a[0]) < rank(b[0])
    else LexLe(rank, a[1..], b[1..])
  }

  lemma LexTotal<T>(rank: T -> int, a: seq<T>, b: seq<T>)
    ensures LexLe(rank, a, b) || LexLe(rank, b, a)
  {
  }

  lemma LexTransitive<T>(rank: T -> int, a: seq<T>, b: seq<T>, c: seq<T>)
    requires LexLe(rank, a, b) && LexLe(rank, b, c)
    ensures LexLe(rank, a, c)
  {
  }

  lemma LexAntisymmetric<T(!new)>(rank: T -> int, a: seq<T>, b: seq<T>)
    requires forall x, y :: rank(x) == rank(y) ==> x == y
    requires LexLe(rank, a, b) && LexLe(rank, b, a)
    ensures a == b
  {
    if a != [] && b != [] {
      LexAntisymmetric(rank, a[1..], b[1..]);
      assert a == [a[0]] + a[1..] && b == [b[0]] + b[1..];
    }
  }

  function CharRank(c: char): int { c as int }

  /** The order JavaScript's `<=` and `sort()` give to strings. */
  predicate StrLe(a: string, b: string) { LexLe(CharRank, a, b) }

  lemma StrTotalOrder()
    ensures TotalOrder(StrLe)
  {
    forall a: string, b: string ensures StrLe(a, b) || StrLe(b, a) { LexTotal(CharRank, a, b); }
    forall a: string, b: string | StrLe(a, b) && StrLe(b, a) ensures a == b {
      LexAntisymmetric(CharRank, a, b);
    }
    forall a: string, b: string, c: string | StrLe(a, b) && StrLe(b, c) ensures StrLe(a, c) {
      LexTransitive(CharRank, a, b, c);
    }
  }

  /** The two sequences part at `k`: the first ends there, or has the lower element there. */
  predicate PartsAt<T(==)>(rank: T -> int, a: seq<T>, b: seq<T>, k: nat) {
    && k <= |a| && k <= |b| && a[..k] == b[..k]
    && ((k == |a| && k < |b|) || (k < |a| && k < |b| && rank(a[k]) < rank(b[k])))
  }

  lemma {:induction false} LexParts<T(!new)>(rank: T -> int, a: seq<T>, b: seq<T>)
    requires forall x, y :: rank(x) == rank(y) ==> x == y
    ensures LexLe(rank, a, b) <==> a == b || exists k: nat :: PartsAt(rank, a, b, k)
  {
    if a == [] {
      if b != [] { assert PartsAt(rank, a, b, 0); }
    } else if b != [] {
      if rank(a[0]) == rank(b[0]) {
        LexParts(rank, a[1..], b[1..]);
        PartsShift(rank, a, b);
        assert a == [a[0]] + a[1..] && b == [b[0]] + b[1..];
      } else {
        PartsFirst(rank, a, b);
      }
    }
  }

  lemma {:induction false} PartsShift<T(!new)>(rank: T -> int, a: seq<T>, b: seq<T>)
    requires a != [] && b != [] && a[0] == b[0]
    ensures (exists k: nat :: PartsAt(rank, a, b, k)) <==> exists k: nat :: PartsAt(rank, a[1..], b[1..], k)
  {
    if k: nat :| PartsAt(rank, a, b, k) {
      assert k > 0;
      assert a[1..][..k - 1] == a[..k][1..] && b[1..][..k - 1] == b[..k][1..];
      assert PartsAt(rank, a[1..], b[1..], k - 1);
    }
    if k: nat :| PartsAt(rank, a[1..], b[1..], k) {
      assert a[..k + 1] == [a[0]] + a[1..][..k] && b[..k + 1] == [b[0]] + b[1..][..k];
      assert PartsAt(rank, a, b, k + 1);
    }
  }

  lemma {:induction false} PartsFirst<T(!new)>(rank: T -> int, a: seq<T>, b: seq<T>)
    requires a != [] && b != [] && a[0] != b[0]
    ensures (exists k: nat :: PartsAt(rank, a, b, k)) <==> rank(a[0]) < rank(b[0])
  {
    if rank(a[0]) < rank(b[0]) { assert PartsAt(rank, a, b, 0); }
  }

  /** Where two strings part, the lower one ends or has the lower character. */
  predicate StrPartsAt(a: string, b: string, k: nat) {
    && k <= |a| && k <= |b| && a[..k] == b[..k]
    && ((k == |a| && k < |b|) || (k < |a| && k < |b| && a[k] < b[k]))
  }

  ghost predicate StrBelow(a: string, b: string) { exists k: nat :: StrPartsAt(a, b, k) }

  /** The order of strings is by the first character in which they differ, a prefix first. */
  lemma {:induction false} StrLeMeaning(a: string, b: string)
    ensures StrLe(a, b) <==> a == b || StrBelow(a, b)
  {
    LexParts(CharRank, a, b);
    assert forall k: nat :: PartsAt(CharRank, a, b, k) <==> StrPartsAt(a, b, k);
    if k: nat :| PartsAt(CharRank, a, b, k) { assert StrPartsAt(a, b, k); }
    if k: nat :| StrPartsAt(a, b, k) { assert PartsAt(CharRank, a, b, k); }
  }

  // --------------------------------------------------------------- sorting

  predicate SortedBy<T, K>(key: T -> K, le: (K, K) -> bool, s: seq<T>) {
    forall i, j :: 0 <= i < j < |s| ==> le(key(s[i]), key(s[j]))
  }

  ghost predicate KeysIdentify<T, K>(key: T -> K, s: seq<T>) {
    forall x, y :: x in s && y in s && key(x) == key(y) ==> x == y
  }

  function Insert<T, K>(key: T -> K, le: (K, K) -> bool, x: T, s: seq<T>): seq<T> {
    if s == [] then [x]
    else if le(key(x), key(s[0])) then [x] + s
    else [s[0]] + Insert(key, le, x, s[1..])
  }

  function Sort<T, K>(key: T -> K, le: (K, K) -> bool, s: seq<T>): seq<T> {
    if s == [] then [] else Insert(key, le, s[0], Sort(key, le, s[1..]))
  }

  lemma {:induction false} InsertPermutes<T, K>(key: T -> K, le: (K, K) -> bool, x: T, s: seq<T>)
    ensures multiset(Insert(key, le, x, s)) == multiset(s) + multiset{x}
  {
    if s != [] && !le(key(x), key(s[0])) {
      InsertPermutes(key, le, x, s[1..]);
      assert s == [s[0]] + s[1..];
    }
  }

  lemma {:induction false} SortPermutes<T, K>(key: T -> K, le: (K, K) -> bool, s: seq<T>)
    ensures multiset(Sort(key, le, s)) == multiset(s)
    ensures |Sort(key, le, s)| == |s|
  {
    if s != [] {
      SortPermutes(key, le, s[1..]);
      InsertPermutes(key, le, s[0], Sort(key, le, s[1..]));
      assert s == [s[0]] + s[1..];
    }
    assert |multiset(Sort(key, le, s))| == |multiset(s)|;
  }

  lemma SortMembers<T, K>(key: T -> K, le: (K, K) -> bool, s: seq<T>, x: T)
    ensures x in Sort(key, le, s) <==> x in s
  {
    SortPermutes(key, le, s);
    assert x in s <==> x in multiset(s);
    assert x in Sort(key, le, s) <==> x in multiset(Sort(key, le, s));
  }

  lemma {:induction false} InsertSorted<T, K(!new)>(key: T -> K, le: (K, K) -> bool, x: T, s: seq<T>)
    requires TotalPreorder(le) && SortedBy(key, le, s)
    ensures SortedBy(key, le, Insert(key, le, x, s))
  {
    if s != [] && !le(key(x), key(s[0])) {
      InsertSorted(key, le, x, s[1..]);
      InsertPermutes(key, le, x, s[1..]);
      var rest := Insert(key, le, x, s[1..]);
      forall i | 0 <= i < |rest| ensures le(key(s[0]), key(rest[i])) {
        assert rest[i] in multiset(rest);
        assert rest[i] == x || rest[i] in s[1..];
      }
    } else if s != [] {
      var r := [x] + s;
      forall j | 0 < j < |r| ensures le(key(r[0]), key(r[j])) {
        assert le(key(s[0]), key(s[0]));
      }
    }
  }

  lemma {:induction false} SortSorted<T, K(!new)>(key: T -> K, le: (K, K) -> bool, s: seq<T>)
    requires TotalPreorder(le)
    ensures SortedBy(key, le, Sort(key, le, s))
  {
    if s != [] {
      SortSorted(key, le, s[1..]);
      InsertSorted(key, le, s[0], Sort(key, le, s[1..]));
    }
  }

  /** No two elements tie. */
  ghost predicate Untied<T, K>(key: T -> K, le: (K, K) -> bool, s: seq<T>) {
    forall x, y :: x in s && y in s && le(key(x), key(y)) && le(key(y), key(x)) ==> x == y
  }

  lemma SortedHeadsAgree<T, K>(key: T -> K, le: (K, K) -> bool, s: seq<T>, t: seq<T>)
    requires SortedBy(key, le, s) && SortedBy(key, le, t)
    requires s != [] && t != [] && s[0] in t && t[0] in s && Untied(key, le, s)
    ensures s[0] == t[0]
  {
    var i :| 0 <= i < |t| && t[i] == s[0];
    var j :| 0 <= j < |s| && s[j] == t[0];
    if i != 0 && j != 0 {
      assert le(key(s[0]), key(s[j])) && le(key(t[0]), key(t[i]));
    }
  }

  lemma {:induction false} SortedStep<T, K>(key: T -> K, le: (K, K) -> bool, s: seq<T>, t: seq<T>)
    requires s != [] && t != [] && multiset(s) == multiset(t)
    requires SortedBy(key, le, s) && SortedBy(key, le, t) && Untied(key, le, s)
    ensures s[0] == t[0] && multiset(s[1..]) == multiset(t[1..])
  {
    PermutedHeads(s, t);
    SortedHeadsAgree(key, le, s, t);
    HeadRemoved(s);
    HeadRemoved(t);
  }

  /** A sorted arrangement of elements that do not tie is unique. */
  lemma {:induction false} SortedUnique<T, K>(key: T -> K, le: (K, K) -> bool, s: seq<T>, t: seq<T>)
    requires SortedBy(key, le, s) && SortedBy(key, le, t) && multiset(s) == multiset(t) && Untied(key, le, s)
    ensures s == t
  {
    PermutedHeads(s, t);
    if s != [] {
      SortedStep(key, le, s, t);
      SortedTail(key, le, s);
      SortedTail(key, le, t);
      TailUntied(key, le, s);
      SortedUnique(key, le, s[1..], t[1..]);
      assert s == [s[0]] + s[1..] && t == [t[0]] + t[1..];
    }
  }

  lemma {:induction false} PermutedHeads<T>(s: seq<T>, t: seq<T>)
    requires multiset(s) == multiset(t)
    ensures |s| == |t| && (s != [] ==> s[0] in t && t[0] in s)
  {
    assert |multiset(s)| == |multiset(t)|;
    if s != [] { assert s[0] in multiset(t) && t[0] in multiset(s); }
  }

  lemma {:induction false} SortedTail<T, K>(key: T -> K, le: (K, K) -> bool, s: seq<T>)
    requires s != [] && SortedBy(key, le, s)
    ensures SortedBy(key, le, s[1..])
  {
  }

  lemma {:induction false} HeadRemoved<T>(s: seq<T>)
    requires s != []
    ensures multiset(s[1..]) == multiset(s) - multiset{s[0]}
  {
    assert s == [s[0]] + s[1..];
  }

  lemma {:induction false} TailUntied<T, K>(key: T -> K, le: (K, K) -> bool, s: seq<T>)
    requires s != [] && Untied(key, le, s)
    ensures Untied(key, le, s[1..])
  {
  }

  /** Insertion is stable: whatever comes before the new element is strictly below it. */
  lemma {:induction false} InsertAhead<T, K>(key: T -> K, le: (K, K) -> bool, x: T, s: seq<T>) returns (p: nat)
    ensures var r := Insert(key, le, x, s);
            p < |r| && r[p] == x && forall i :: 0 <= i < p ==> !le(key(x), key(r[i]))
  {
    if s == [] || le(key(x), key(s[0])) {
      p := 0;
    } else {
      var q := InsertAhead(key, le, x, s[1..]);
      p := q + 1;
    }
  }

  /** Sorting forgets the order it was given. */
  lemma SortOfPermutation<T, K(!new)>(key: T -> K, le: (K, K) -> bool, s: seq<T>, t: seq<T>)
    requires TotalOrder(le) && multiset(s) == multiset(t) && KeysIdentify(key, s)
    ensures Sort(key, le, s) == Sort(key, le, t)
  {
    SortSorted(key, le, s);
    SortSorted(key, le, t);
    SortPermutes(key, le, s);
    SortPermutes(key, le, t);
    forall x | x in Sort(key, le, s) ensures x in s { assert x in multiset(s); }
    assert Untied(key, le, Sort(key, le, s));
    SortedUnique(key, le, Sort(key, le, s), Sort(key, le, t));
  }

  // ------------------------------------------------- distinctness and counting

  predicate Distinct<T(==)>(s: seq<T>) {
    forall i, j :: 0 <= i < j < |s| ==> s[i] != s[j]
  }

  function ToSet<T>(s: seq<T>): set<T> { set x | x in s }

  lemma DistinctCount<T>(s: seq<T>)
    requires Distinct(s)
    ensures |ToSet(s)| == |s|
  {
    if s != [] {
      var p := s[..|s| - 1];
      DistinctCount(p);
      assert s == p + [s[|s| - 1]];
      assert ToSet(s) == ToSet(p) + {s[|s| - 1]};
    }
  }

  lemma SubsetCount<T>(a: set<T>, b: set<T>)
    requires a <= b
    ensures |a| <= |b|
  {
    assert b == a + (b - a);
  }

  lemma DistinctSubset<T>(s: seq<T>, b: set<T>)
    requires Distinct(s) && forall x :: x in s ==> x in b
    ensures |s| <= |b|
  {
    DistinctCount(s);
    SubsetCount(ToSet(s), b);
  }

  // ------------------------------------------------------------ ordered maps

  /** A JavaScript `Map`: its entries, and the order in which their keys were added. */
  datatype OrderedMap<K, V> = OrderedMap(keys: seq<K>, at: map<K, V>)

  ghost predicate WellKeyed<K, V>(m: OrderedMap<K, V>) {
    Distinct(m.keys) && ToSet(m.keys) == m.at.Keys
  }

  function Put<K(==), V>(m: OrderedMap<K, V>, k: K, v: V): OrderedMap<K, V> {
    OrderedMap(if k in m.at then m.keys else m.keys + [k], m.at[k := v])
  }

  lemma PutKeyed<K, V>(m: OrderedMap<K, V>, k: K, v: V)
    requires WellKeyed(m)
    ensures WellKeyed(Put(m, k, v))
  {
    assert k !in m.at ==> k !in ToSet(m.keys);
    assert ToSet(m.keys + [k]) == ToSet(m.keys) + {k};
  }

  lemma DistinctPermutation<T>(s: seq<T>, t: seq<T>)
    requires Distinct(s) && Distinct(t) && ToSet(s) == ToSet(t)
    ensures multiset(s) == multiset(t)
  {
    forall x ensures multiset(s)[x] == multiset(t)[x] {
      DistinctOnce(s, x);
      DistinctOnce(t, x);
      assert x in s <==> x in ToSet(s);
      assert x in t <==> x in ToSet(t);
    }
  }

  lemma DistinctOnce<T>(s: seq<T>, x: T)
    requires Distinct(s)
    ensures multiset(s)[x] == if x in s then 1 else 0
  {
    if s != [] {
      var p := s[..|s| - 1];
      DistinctOnce(p, x);
      assert s == p + [s[|s| - 1]];
    }
  }

  lemma {:induction false} RemovedAt<T>(s: seq<T>, i: nat)
    requires i < |s|
    ensures multiset(s[..i] + s[i + 1..]) == multiset(s) - multiset{s[i]}
  {
    assert s == s[..i] + [s[i]] + s[i + 1..];
  }

  function MapSeq<T, U>(f: T -> U, s: seq<T>): (r: seq<U>)
    ensures |r| == |s|
  {
    if s == [] then [] else MapSeq(f, s[..|s| - 1]) + [f(s[|s| - 1])]
  }

  lemma {:induction false} MapAt<T, U>(f: T -> U, s: seq<T>, i: nat)
    requires i < |s|
    ensures MapSeq(f, s)[i] == f(s[i])
  {
    if i < |s| - 1 { MapAt(f, s[..|s| - 1], i); }
  }

  lemma {:induction false} MapJoined<T, U>(f: T -> U, a: seq<T>, b: seq<T>)
    ensures MapSeq(f, a + b) == MapSeq(f, a) + MapSeq(f, b)
  {
    if b == [] {
      assert a + b == a;
    } else {
      var n := |b| - 1;
      MapJoined(f, a, b[..n]);
      assert (a + b)[..|a| + n] == a + b[..n];
    }
  }

  lemma {:induction false} MapRemoved<T, U>(f: T -> U, s: seq<T>, i: nat)
    requires i < |s|
    ensures multiset(MapSeq(f, s)) == multiset(MapSeq(f, s[..i] + s[i + 1..])) + multiset{f(s[i])}
  {
    var a, b := s[..i], s[i + 1..];
    assert s == a + ([s[i]] + b);
    MapJoined(f, a, [s[i]] + b);
    MapJoined(f, [s[i]], b);
    MapJoined(f, a, b);
    assert MapSeq(f, [s[i]]) == [f(s[i])];
  }

  /** Mapping a permutation gives a permutation. */
  lemma {:induction false} MapPermuted<T, U>(f: T -> U, s: seq<T>, t: seq<T>)
    requires multiset(s) == multiset(t)
    ensures multiset(MapSeq(f, s)) == multiset(MapSeq(f, t))
    decreases |s|
  {
    assert |multiset(s)| == |multiset(t)|;
    if s != [] {
      var n := |s| - 1;
      assert s[n] in multiset(t);
      var i :| 0 <= i < |t| && t[i] == s[n];
      RemovedAt(s, n);
      RemovedAt(t, i);
      MapRemoved(f, s, n);
      MapRemoved(f, t, i);
      MapPermuted(f, s[..n] + s[n + 1..], t[..i] + t[i + 1..]);
    }
  }
}
