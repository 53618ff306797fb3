/** What a canonical text says: the value it was printed from, names in code-unit order, strings in shortest tokens. */
module JsonMeaning {
  import opened Seqs
  import opened Json
  import opened JsonScanner
  import opened JsonCanonical

  // ------------------------------------------------------- the order of names

  /** The texts agree on `k` units, and then `x` ends or has the smaller unit. */
  predicate TextPartsAt(x: Text, y: Text, k: nat) {
    && k <= |x| && k <= |y| && x[..k] == y[..k]
    && ((k == |x| && k < |y|) || (k < |x| && k < |y| && x[k] < y[k]))
  }

  ghost predicate TextBelow(x: Text, y: Text) { exists k: nat :: TextPartsAt(x, y, k) }

  /** The order of `Array.prototype.sort` on strings is by the first code unit in which they differ, a prefix first. */
  lemma {:induction false} TextLeMeaning(x: Text, y: Text)
    ensures TextLe(x, y) <==> x == y || TextBelow(x, y)
  {
    LexParts(UnitRank, x, y);
    assert forall k: nat :: PartsAt(UnitRank, x, y, k) <==> TextPartsAt(x, y, k);
    if k: nat :| PartsAt(UnitRank, x, y, k) { assert TextPartsAt(x, y, k); }
    if k: nat :| TextPartsAt(x, y, k) { assert PartsAt(UnitRank, x, y, k); }
  }

  /** Sorted members hold the object's members, each once, in ascending order of their names' code units. */
  lemma {:induction false} SortedAscend(members: seq<Member>)
    requires NamesDistinct(members)
    ensures var r := SortedMembers(members);
            && |r| == |members| && multiset(r) == multiset(members)
            && forall i, j :: 0 <= i < j < |r| ==> TextBelow(r[i].name, r[j].name)
  {
    var r := SortedMembers(members);
    SortPermutes(NameOf, TextLe, members);
    SortedDistinct(members);
    TextTotalOrder();
    SortSorted(NameOf, TextLe, members);
    forall i, j | 0 <= i < j < |r| ensures TextBelow(r[i].name, r[j].name) {
      assert TextLe(NameOf(r[i]), NameOf(r[j]));
      TextLeMeaning(r[i].name, r[j].name);
    }
  }

  // --------------------------------------------------------- the shortest token

  predicate PairedAt(t: Text, i: nat)
    requires i < |t|
  {
    && (High(t[i]) ==> i + 1 < |t| && Low(t[i + 1]))
    && (Low(t[i]) ==> i > 0 && High(t[i - 1]))
  }

  /** No half of a surrogate pair stands alone. */
  predicate Paired(t: Text) { forall i :: 0 <= i < |t| ==> PairedAt(t, i) }

  predicate Bare(t: Text) { forall i :: 0 <= i < |t| ==> !High(t[i]) && !Low(t[i]) }

  lemma {:induction false} HexFourLower(u: Unit)
    ensures forall i :: 0 <= i < 4 ==> 0x30 <= HexFour(u)[i] <= 0x39 || 0x61 <= HexFour(u)[i] <= 0x66
  {
    Digits(u);
  }

  lemma {:induction false} QuoteUnitBare(u: Unit)
    ensures Bare(QuoteUnit(u))
  {
    HexFourLower(u);
  }

  lemma {:induction false} PairedAfter(a: Text, t: Text)
    requires Paired(t) && (Bare(a) || (|a| == 2 && High(a[0]) && Low(a[1])))
    ensures Paired(a + t)
  {
    var s := a + t;
    forall i | 0 <= i < |s| ensures PairedAt(s, i) {
      if i >= |a| {
        assert PairedAt(t, i - |a|) && s[i] == t[i - |a|];
        if High(s[i]) { assert s[i + 1] == t[i - |a| + 1]; }
        if Low(s[i]) { assert s[i - 1] == t[i - |a| - 1]; }
      } else {
        assert s[i] == a[i];
      }
    }
  }

  lemma {:induction false} QuotePaired(s: Text)
    ensures Paired(QuoteBody(s))
  {
    if s != [] {
      if High(s[0]) && |s| > 1 && Low(s[1]) {
        QuotePaired(s[2..]);
        PairedAfter([s[0], s[1]], QuoteBody(s[2..]));
      } else {
        QuotePaired(s[1..]);
        QuoteUnitBare(s[0]);
        PairedAfter(QuoteUnit(s[0]), QuoteBody(s[1..]));
      }
    }
  }

  lemma {:induction false} PairedRest(t: Text, k: nat)
    requires Paired(t) && 0 < k <= |t| && !High(t[k - 1])
    ensures Paired(t[k..])
  {
    var r := t[k..];
    forall i | 0 <= i < |r| ensures PairedAt(r, i) {
      assert PairedAt(t, k + i) && r[i] == t[k + i];
    }
  }

  /** Writing one more unit in front costs at most its own token. */
  lemma {:induction false} ConsCost(u: Unit, s: Text)
    ensures |QuoteBody([u] + s)| <= |QuoteBody(s)| + 6
    ensures !High(u) ==> |QuoteBody([u] + s)| == |QuoteBody(s)| + |QuoteUnit(u)|
  {
    assert ([u] + s)[1..] == s;
    if High(u) && s != [] && Low(s[0]) { assert ([u] + s)[2..] == s[1..]; }
  }

  lemma {:induction false} PairCost(u: Unit, v: Unit, s: Text)
    requires High(u) && Low(v)
    ensures |QuoteBody([u] + ([v] + s))| == |QuoteBody(s)| + 2
  {
    assert ([u] + ([v] + s))[2..] == s;
  }

  /** No other token of a string that keeps surrogates paired is shorter than the one printed. */
  lemma {:induction false} QuoteShortest(s: Text, t: Text)
    requires Decode(t) == Some(s) && Paired(t)
    ensures |QuoteBody(s)| <= |t|
    decreases |t|
  {
    if t != [] {
      assert PairedAt(t, 0);
      if t[0] == BACKSLASH && t[1] == LOWER_U {
        PairedRest(t, 6);
        QuoteShortest(Decode(t[6..]).value, t[6..]);
        ConsCost(s[0], Decode(t[6..]).value);
      } else if t[0] == BACKSLASH {
        PairedRest(t, 2);
        QuoteShortest(Decode(t[2..]).value, t[2..]);
        ConsCost(s[0], Decode(t[2..]).value);
      } else if High(t[0]) {
        assert Low(t[1]) && t[1..][1..] == t[2..];
        PairedRest(t, 2);
        QuoteShortest(Decode(t[2..]).value, t[2..]);
        PairCost(t[0], t[1], Decode(t[2..]).value);
      } else {
        PairedRest(t, 1);
        QuoteShortest(Decode(t[1..]).value, t[1..]);
        ConsCost(t[0], Decode(t[1..]).value);
      }
    }
  }

  /** A token without a lone surrogate, and no longer than any such token of the same string. */
  ghost predicate Shortest(body: Text) {
    Paired(body) && forall t :: Paired(t) && Decode(t) == Decode(body) ==> |body| <= |t|
  }

  lemma {:induction false} QuoteIsShortest(s: Text)
    ensures Shortest(QuoteBody(s)) && Decode(QuoteBody(s)) == Some(s)
  {
    QuoteDecodes(s);
    QuotePaired(s);
    forall t | Paired(t) && Decode(t) == Decode(QuoteBody(s)) ensures |QuoteBody(s)| <= |t| { QuoteShortest(s, t); }
  }

  // ------------------------------------------------------- what the text means

  /** The value that a scanned text denotes; the order of an object's members is not part of it. */
  ghost predicate Means(c: Layout, v: Value)
    decreases c
  {
    match v
    case Null => c.Literal? && c.word == [0x6e, 0x75, 0x6c, 0x6c]
    case Bool(b) => c.Literal? && c.word == if b then [0x74, 0x72, 0x75, 0x65] else [0x66, 0x61, 0x6c, 0x73, 0x65]
    case Number(token) => c.Numeral? && c.token == token
    case Str(s) => c.StringToken? && Decode(c.body) == Some(s)
    case Arr(items) =>
      c.Array? && |c.items| == |items| && forall i :: 0 <= i < |items| ==> Means(c.items[i].value, items[i])
    case Obj(members) =>
      c.Object? && |c.fields| == |members| && forall i :: 0 <= i < |c.fields| ==> FieldMeans(c.fields[i], members)
    case _ => false
  }

  ghost predicate FieldMeans(f: Field, members: seq<Member>)
    decreases f
  {
    exists m :: m in members && Decode(f.name) == Some(m.name) && Means(f.value, m.value)
  }

  /** No white space, every string and name in its shortest token, and the names of every object ascending. */
  ghost predicate Tidy(c: Layout)
    decreases c
  {
    && c.space == []
    && match c
       case StringToken(_, body) => Shortest(body)
       case Array(_, gap, items) =>
         gap == [] && forall i :: 0 <= i < |items| ==> items[i].after == [] && Tidy(items[i].value)
       case Object(_, gap, fields) =>
         && gap == [] && (forall i :: 0 <= i < |fields| ==> FieldTidy(fields[i]))
         && (forall i, j :: 0 <= i < j < |fields| ==> FieldsAscend(fields[i], fields[j]))
       case _ => true
  }

  ghost predicate FieldTidy(f: Field)
    decreases f
  {
    f.space == [] && f.beforeColon == [] && f.after == [] && Shortest(f.name) && Tidy(f.value)
  }

  ghost predicate FieldsAscend(f: Field, g: Field) {
    exists x, y :: Decode(f.name) == Some(x) && Decode(g.name) == Some(y) && TextBelow(x, y)
  }

  lemma {:induction false} LayoutMeans(v: Value)
    requires Proper(v) && GateJson(v).Some?
    ensures Means(LayoutOf(v), v) && Tidy(LayoutOf(v))
    decreases Size(v), 1
  {
    match v {
      case Str(s) => QuoteIsShortest(s);
      case Arr(items) =>
        forall i | 0 <= i < |items|
          ensures LayoutItems(items)[i].after == [] && Tidy(LayoutItems(items)[i].value)
          ensures Means(LayoutItems(items)[i].value, items[i])
        {
          ItemPrints(items, i);
          ItemAfter(items, i);
          LayoutMeans(items[i]);
        }
      case Obj(members) => ObjectMeans(v);
      case _ =>
    }
  }

  lemma {:induction false} ItemAfter(items: seq<Value>, i: nat)
    requires i < |items|
    ensures LayoutItems(items)[i].after == []
  {
    if i > 0 { ItemAfter(items[1..], i - 1); }
  }

  lemma {:induction false} ObjectMeans(v: Value)
    requires Proper(v) && GateJson(v).Some? && v.Obj?
    ensures Means(LayoutOf(v), v) && Tidy(LayoutOf(v))
    decreases Size(v), 0
  {
    var r := SortedMembers(v.members);
    var fields := LayoutFields(r);
    SortedAscend(v.members);
    forall i | 0 <= i < |fields| ensures FieldMeans(fields[i], v.members) && FieldTidy(fields[i]) {
      MemberPrints(r, i);
      SortedHas(v.members, r[i]);
      QuoteIsShortest(r[i].name);
      LayoutMeans(r[i].value);
    }
    forall i, j | 0 <= i < j < |fields| ensures FieldsAscend(fields[i], fields[j]) {
      MemberPrints(r, i);
      MemberPrints(r, j);
      QuoteDecodes(r[i].name);
      QuoteDecodes(r[j].name);
      assert TextBelow(r[i].name, r[j].name);
    }
  }

  /**
   * The canonical text of a value reads back, through the scan, as that value; it has no white space, its strings are
   * in their shortest tokens, and in every object at any depth an earlier name comes before a later one by the first
   * code unit in which they differ.
   */
  lemma {:induction false} CanonicalMeaning(v: Value)
    requires Proper(v) && GateJson(v).Some?
    ensures ScanText(GateJson(v).value).Ok?
    ensures var c := ScanText(GateJson(v).value).value;
            LayoutText(c) == GateJson(v).value && Means(c, v) && Tidy(c)
  {
    CanonicalAccepted(v);
    TextOfValue(v);
    LayoutMeans(v);
  }

  // -------------------------------------------------------------- what is refused

  /** Built of null, booleans, finite numbers, strings, arrays and objects alone. */
  predicate Printable(v: Value)
    decreases v
  {
    match v
    case Arr(items) => forall x :: x in items ==> Printable(x)
    case Obj(members) => forall m :: m in members ==> Printable(m.value)
    case _ => !v.NonFinite? && !v.Other?
  }

  /** A value prints exactly when nothing in it, at any depth, is a non-finite number or another kind of value. */
  lemma {:induction false} PrintsExactly(v: Value)
    ensures GateJson(v).Some? <==> Printable(v)
    decreases Size(v), 0
  {
    if v.Arr? {
      ItemsPrint(v.items);
    } else if v.Obj? {
      MembersPrint(SortedMembers(v.members));
      forall m ensures m in SortedMembers(v.members) <==> m in v.members { SortedHas(v.members, m); }
    }
  }

  lemma {:induction false} ItemsPrint(items: seq<Value>)
    ensures GateItems(items).Some? <==> forall x :: x in items ==> Printable(x)
    decreases ItemsSize(items), 1 + |items|
  {
    if items != [] {
      PrintsExactly(items[0]);
      ItemsPrint(items[1..]);
      assert items == [items[0]] + items[1..];
    }
  }

  lemma {:induction false} MembersPrint(members: seq<Member>)
    ensures GateMembers(members).Some? <==> forall m :: m in members ==> Printable(m.value)
    decreases MembersSize(members), 1 + |members|
  {
    if members != [] {
      PrintsExactly(members[0].value);
      MembersPrint(members[1..]);
      assert members == [members[0]] + members[1..];
    }
  }
}
