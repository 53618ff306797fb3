/** The canonical text of a value: accepted by the scan, blind to member order, and never shared by two values. */
module JsonCanonical {
  import opened Seqs
  import opened Json
  import opened JsonScanner
  import opened JsonScannerMeaning
  import opened JsonGrammar

  // ------------------------------------------------------ values as layouts

  function LayoutOf(v: Value): Layout
    decreases Size(v), 0
  {
    match v
    case Null => Literal([], NULL)
    case Bool(b) => Literal([], if b then TRUE else FALSE)
    case Number(token) => Numeral([], token)
    case Str(s) => StringToken([], QuoteBody(s))
    case Arr(items) => Array([], [], LayoutItems(items))
    case Obj(members) => Object([], [], LayoutFields(SortedMembers(members)))
    case _ => Literal([], NULL)
  }

  function LayoutItems(items: seq<Value>): (r: seq<Item>)
    ensures |r| == |items|
    decreases ItemsSize(items), 1 + |items|
  {
    if items == [] then [] else [Item(LayoutOf(items[0]), [])] + LayoutItems(items[1..])
  }

  function LayoutFields(members: seq<Member>): (r: seq<Field>)
    ensures |r| == |members|
    decreases MembersSize(members), 1 + |members|
  {
    if members == [] then []
    else [Field([], QuoteBody(members[0].name), [], LayoutOf(members[0].value), [])] + LayoutFields(members[1..])
  }

  // -------------------------------------------------------- sorted members

  predicate NamesDistinct(members: seq<Member>) {
    forall i, j :: 0 <= i < j < |members| ==> members[i].name != members[j].name
  }

  predicate MembersProper(members: seq<Member>) { forall m :: m in members ==> Proper(m.value) }

  lemma {:induction false} SortedHas(members: seq<Member>, m: Member)
    ensures m in SortedMembers(members) <==> m in members
  {
    SortMembers(NameOf, TextLe, members, m);
  }

  lemma {:induction false} NamesIdentify(members: seq<Member>)
    requires NamesDistinct(members)
    ensures Distinct(members) && KeysIdentify(NameOf, members)
  {
    forall x, y | x in members && y in members && NameOf(x) == NameOf(y) ensures x == y {
      var i :| 0 <= i < |members| && members[i] == x;
      var j :| 0 <= j < |members| && members[j] == y;
    }
  }

  lemma {:induction false} SortedDistinct(members: seq<Member>)
    requires NamesDistinct(members)
    ensures NamesDistinct(SortedMembers(members)) && |SortedMembers(members)| == |members|
  {
    var r := SortedMembers(members);
    SortPermutes(NameOf, TextLe, members);
    NamesIdentify(members);
    forall i, j | 0 <= i < j < |r| ensures r[i].name != r[j].name {
      SortedHas(members, r[i]);
      SortedHas(members, r[j]);
      if r[i] == r[j] {
        RepeatCounts(r, i, j);
        DistinctOnce(members, r[i]);
      }
    }
  }

  lemma {:induction false} RepeatCounts(s: seq<Member>, i: nat, j: nat)
    requires i < j < |s| && s[i] == s[j]
    ensures multiset(s)[s[i]] >= 2
  {
    assert s == s[..j] + [s[j]] + s[j + 1..];
    assert s[i] in s[..j];
  }

  // ------------------------------------------------ canonical text is a layout

  lemma {:induction false} TextOfValue(v: Value)
    requires GateJson(v).Some?
    ensures GateJson(v).value == LayoutText(LayoutOf(v))
    decreases Size(v), 0
  {
    var core := Core(LayoutOf(v));
    assert LayoutText(LayoutOf(v)) == [] + core == core;
    if v.Arr? && v.items != [] {
      TextOfItems(v.items);
      Closed(LBRACKET, JoinText(GateItems(v.items).value), RBRACKET);
    } else if v.Obj? && SortedMembers(v.members) != [] {
      TextOfMembers(SortedMembers(v.members));
      Closed(LBRACE, JoinText(GateMembers(SortedMembers(v.members)).value), RBRACE);
    } else if v.Str? {
      Closed(QUOTE, QuoteBody(v.s), QUOTE);
    }
  }

  lemma {:induction false} Closed(open: Unit, t: Text, close: Unit)
    ensures [open] + t + [close] == [open] + (t + [close])
  {
  }

  lemma {:induction false} JoinMore(parts: seq<Text>, close: Unit)
    requires |parts| > 1
    ensures JoinText(parts) + [close] == parts[0] + ([] + ([COMMA] + (JoinText(parts[1..]) + [close])))
  {
    var more := JoinText(parts[1..]);
    assert [] + ([COMMA] + (more + [close])) == [COMMA] + (more + [close]);
    assert parts[0] + [COMMA] + more + [close] == parts[0] + ([COMMA] + (more + [close]));
  }

  lemma {:induction false} TextOfItems(items: seq<Value>)
    requires items != [] && GateItems(items).Some?
    ensures JoinText(GateItems(items).value) + [RBRACKET] == ItemsText(LayoutItems(items))
    decreases ItemsSize(items), 1 + |items|
  {
    var layouts, parts := LayoutItems(items), GateItems(items).value;
    TextOfValue(items[0]);
    if |items| == 1 {
      assert [] + [RBRACKET] == [RBRACKET];
    } else {
      TextOfItems(items[1..]);
      assert layouts[1..] == LayoutItems(items[1..]);
      assert parts[1..] == GateItems(items[1..]).value;
      JoinMore(parts, RBRACKET);
    }
  }

  lemma {:induction false} TextOfMembers(members: seq<Member>)
    requires members != [] && GateMembers(members).Some?
    ensures JoinText(GateMembers(members).value) + [RBRACE] == FieldsText(LayoutFields(members))
    decreases MembersSize(members), 1 + |members|
  {
    var fields, parts := LayoutFields(members), GateMembers(members).value;
    TextOfValue(members[0].value);
    TextOfField(members[0]);
    if |members| == 1 {
      assert [] + [RBRACE] == [RBRACE];
    } else {
      TextOfMembers(members[1..]);
      assert fields[1..] == LayoutFields(members[1..]);
      assert parts[1..] == GateMembers(members[1..]).value;
      JoinMore(parts, RBRACE);
    }
  }

  lemma {:induction false} TextOfField(m: Member)
    requires GateJson(m.value).Some? && GateJson(m.value).value == LayoutText(LayoutOf(m.value))
    ensures FieldText(Field([], QuoteBody(m.name), [], LayoutOf(m.value), []))
            == Stringify(Str(m.name)) + [COLON] + GateJson(m.value).value
  {
    var name, text := QuoteBody(m.name), LayoutText(LayoutOf(m.value));
    assert Quote(m.name) == Quoted(name);
    assert [] + ([COLON] + text) == [COLON] + text;
    assert [] + (Quoted(name) + ([COLON] + text)) == Quoted(name) + ([COLON] + text);
    assert Quoted(name) + ([COLON] + text) == Quoted(name) + [COLON] + text;
  }

  // --------------------------------------------------- and a proper, unique one

  lemma {:induction false} LayoutProper(v: Value)
    requires Proper(v)
    ensures Formed(LayoutOf(v)) && Unique(LayoutOf(v))
    decreases Size(v), 0
  {
    if v.Str? {
      QuoteDecodes(v.s);
    } else if v.Arr? {
      ItemsProper(v.items);
    } else if v.Obj? {
      var sorted := SortedMembers(v.members);
      SortedDistinct(v.members);
      forall m | m in sorted ensures Proper(m.value) { SortedHas(v.members, m); }
      FieldsProper(sorted, {});
    }
  }

  lemma {:induction false} ItemsProper(items: seq<Value>)
    requires forall x :: x in items ==> Proper(x)
    ensures ItemsFormed(LayoutItems(items)) && ItemsUnique(LayoutItems(items))
    decreases ItemsSize(items), 1 + |items|
  {
    if items != [] {
      assert items[0] in items;
      LayoutProper(items[0]);
      ItemsProper(items[1..]);
      assert LayoutItems(items)[1..] == LayoutItems(items[1..]);
    }
  }

  lemma {:induction false} FieldsProper(members: seq<Member>, keys: set<Text>)
    requires NamesDistinct(members) && MembersProper(members) && forall m :: m in members ==> m.name !in keys
    ensures FieldsFormed(LayoutFields(members)) && FieldsUnique(LayoutFields(members), keys)
    decreases MembersSize(members), 1 + |members|
  {
    if members != [] {
      var m, rest := members[0], members[1..];
      assert m in members;
      LayoutProper(m.value);
      QuoteDecodes(m.name);
      forall n | n in rest ensures n.name !in keys + {m.name} && n in members {
        var i :| 0 <= i < |rest| && rest[i] == n;
        assert members[i + 1] == n;
      }
      FieldsProper(rest, keys + {m.name});
      assert LayoutFields(members)[1..] == LayoutFields(rest);
    }
  }

  /** The duplicate-key scan accepts the canonical text of every value, and reads that value's layout from it. */
  lemma {:induction false} CanonicalAccepted(v: Value)
    requires Proper(v) && GateJson(v).Some?
    ensures ScanText(GateJson(v).value).Ok? && ScanText(GateJson(v).value).value == LayoutOf(v)
  {
    TextOfValue(v);
    LayoutProper(v);
    AcceptsExactlyUnique(LayoutOf(v), []);
    assert LayoutText(LayoutOf(v)) + [] == LayoutText(LayoutOf(v));
  }

  // ------------------------------------------------------- order and identity

  /** Equal values, the order of object members apart. */
  ghost predicate Same(a: Value, b: Value)
    decreases a
  {
    match a
    case Arr(items) => b.Arr? && |items| == |b.items| && forall i :: 0 <= i < |items| ==> Same(items[i], b.items[i])
    case Obj(members) =>
      b.Obj? && |members| == |b.members| && forall m :: m in members ==> HasSame(m, b.members)
    case _ => a == b
  }

  ghost predicate HasSame(m: Member, members: seq<Member>)
    decreases m
  {
    exists n :: n in members && n.name == m.name && Same(m.value, n.value)
  }

  ghost predicate Aligned(x: seq<Member>, y: seq<Member>) {
    |x| == |y| && forall i :: 0 <= i < |x| ==> x[i].name == y[i].name && Same(x[i].value, y[i].value)
  }

  function Names(members: seq<Member>): (r: seq<Text>)
    ensures |r| == |members| && forall i :: 0 <= i < |r| ==> r[i] == members[i].name
  {
    if members == [] then [] else [members[0].name] + Names(members[1..])
  }

  function Itself(t: Text): Text { t }

  lemma {:induction false} NamesSorted(members: seq<Member>)
    ensures SortedBy(Itself, TextLe, Names(SortedMembers(members)))
  {
    TextTotalOrder();
    SortSorted(NameOf, TextLe, members);
    var r := SortedMembers(members);
    forall i, j | 0 <= i < j < |r| ensures TextLe(Names(r)[i], Names(r)[j]) {
      assert TextLe(NameOf(r[i]), NameOf(r[j]));
    }
  }

  lemma {:induction false} SameNames(a: seq<Member>, b: seq<Member>)
    requires NamesDistinct(a) && NamesDistinct(b) && |a| == |b|
    requires forall m :: m in a ==> HasSame(m, b)
    ensures ToSet(Names(a)) == ToSet(Names(b))
  {
    forall t | t in Names(a) ensures t in Names(b) {
      var i :| 0 <= i < |a| && Names(a)[i] == t;
      assert HasSame(a[i], b);
      var n :| n in b && n.name == a[i].name && Same(a[i].value, n.value);
      var j :| 0 <= j < |b| && b[j] == n;
      assert Names(b)[j] == t;
    }
    DistinctCount(Names(a));
    DistinctCount(Names(b));
    var extra := ToSet(Names(b)) - ToSet(Names(a));
    assert ToSet(Names(b)) == ToSet(Names(a)) + extra;
  }

  lemma {:induction false} SortedNames(members: seq<Member>)
    requires NamesDistinct(members)
    ensures multiset(Names(SortedMembers(members))) == multiset(Names(members))
  {
    var r := SortedMembers(members);
    SortedDistinct(members);
    forall t ensures t in Names(r) <==> t in Names(members) {
      if t in Names(r) {
        var i :| 0 <= i < |r| && Names(r)[i] == t;
        SortedHas(members, r[i]);
        var j :| 0 <= j < |members| && members[j] == r[i];
        assert Names(members)[j] == t;
      }
      if t in Names(members) {
        var i :| 0 <= i < |members| && Names(members)[i] == t;
        SortedHas(members, members[i]);
        var j :| 0 <= j < |r| && r[j] == members[i];
        assert Names(r)[j] == t;
      }
    }
    assert ToSet(Names(r)) == ToSet(Names(members));
    DistinctPermutation(Names(r), Names(members));
  }

  lemma {:induction false} SortingAligns(a: seq<Member>, b: seq<Member>)
    requires NamesDistinct(a) && NamesDistinct(b) && |a| == |b| && forall m :: m in a ==> HasSame(m, b)
    ensures Aligned(SortedMembers(a), SortedMembers(b))
  {
    var x, y := SortedMembers(a), SortedMembers(b);
    SortedDistinct(a);
    SortedDistinct(b);
    SameNames(a, b);
    SortedNames(a);
    SortedNames(b);
    DistinctPermutation(Names(a), Names(b));
    NamesSorted(a);
    NamesSorted(b);
    TextTotalOrder();
    SortedUnique(Itself, TextLe, Names(x), Names(y));
    forall i | 0 <= i < |x| ensures x[i].name == y[i].name && Same(x[i].value, y[i].value) {
      assert Names(x)[i] == Names(y)[i];
      SortedHas(a, x[i]);
      assert HasSame(x[i], b);
      var n :| n in b && n.name == x[i].name && Same(x[i].value, n.value);
      SortedHas(b, n);
      var j :| 0 <= j < |y| && y[j] == n;
    }
  }

  /** Member order never shows in the canonical text. */
  lemma {:induction false} OrderForgotten(a: Value, b: Value)
    requires Proper(a) && Proper(b) && Same(a, b)
    ensures GateJson(a) == GateJson(b)
    decreases Size(a), 0
  {
    if a.Arr? {
      ItemsForgotten(a.items, b.items);
    } else if a.Obj? {
      var x, y := SortedMembers(a.members), SortedMembers(b.members);
      SortingAligns(a.members, b.members);
      forall m | m in x ensures Proper(m.value) { SortedHas(a.members, m); }
      forall m | m in y ensures Proper(m.value) { SortedHas(b.members, m); }
      MembersForgotten(x, y);
    }
  }

  lemma {:induction false} ItemsForgotten(a: seq<Value>, b: seq<Value>)
    requires |a| == |b| && (forall x :: x in a ==> Proper(x)) && (forall x :: x in b ==> Proper(x))
    requires forall i :: 0 <= i < |a| ==> Same(a[i], b[i])
    ensures GateItems(a) == GateItems(b)
    decreases ItemsSize(a), 1 + |a|
  {
    if a != [] {
      assert a[0] in a && b[0] in b;
      OrderForgotten(a[0], b[0]);
      ItemsForgotten(a[1..], b[1..]);
    }
  }

  lemma {:induction false} MembersForgotten(x: seq<Member>, y: seq<Member>)
    requires Aligned(x, y) && MembersProper(x) && MembersProper(y)
    ensures GateMembers(x) == GateMembers(y)
    decreases MembersSize(x), 1 + |x|
  {
    if x != [] {
      assert x[0] in x && y[0] in y;
      OrderForgotten(x[0].value, y[0].value);
      MembersForgotten(x[1..], y[1..]);
    }
  }

  lemma {:induction false} QuoteInjective(s: Text, t: Text)
    requires QuoteBody(s) == QuoteBody(t)
    ensures s == t
  {
    QuoteDecodes(s);
    QuoteDecodes(t);
  }

  lemma {:induction false} ItemPrints(items: seq<Value>, i: nat)
    requires GateItems(items).Some? && i < |items|
    ensures GateJson(items[i]).Some? && LayoutItems(items)[i].value == LayoutOf(items[i])
    ensures Size(items[i]) <= ItemsSize(items)
  {
    if i > 0 { ItemPrints(items[1..], i - 1); }
  }

  lemma {:induction false} MemberPrints(members: seq<Member>, i: nat)
    requires GateMembers(members).Some? && i < |members|
    ensures GateJson(members[i].value).Some?
    ensures LayoutFields(members)[i] == Field([], QuoteBody(members[i].name), [], LayoutOf(members[i].value), [])
    ensures Size(members[i].value) <= MembersSize(members)
  {
    if i > 0 { MemberPrints(members[1..], i - 1); }
  }

  lemma {:induction false} LayoutTellsValue(a: Value, b: Value)
    requires Proper(a) && Proper(b) && GateJson(a).Some? && GateJson(b).Some? && LayoutOf(a) == LayoutOf(b)
    ensures Same(a, b)
    decreases Size(a)
  {
    if a.Str? {
      QuoteInjective(a.s, b.s);
    } else if a.Arr? {
      forall i | 0 <= i < |a.items| ensures Same(a.items[i], b.items[i]) {
        ItemPrints(a.items, i);
        ItemPrints(b.items, i);
        LayoutTellsValue(a.items[i], b.items[i]);
      }
    } else if a.Obj? {
      forall m | m in a.members ensures HasSame(m, b.members) { MemberFound(a, b, m); }
      SortedDistinct(a.members);
      SortedDistinct(b.members);
    }
  }

  lemma {:induction false} MemberFound(a: Value, b: Value, m: Member)
    requires Proper(a) && Proper(b) && GateJson(a).Some? && GateJson(b).Some? && LayoutOf(a) == LayoutOf(b)
    requires a.Obj? && b.Obj? && m in a.members
    ensures HasSame(m, b.members)
    decreases Size(a), 0
  {
    var x, y := SortedMembers(a.members), SortedMembers(b.members);
    SortedHas(a.members, m);
    var i :| 0 <= i < |x| && x[i] == m;
    MemberPrints(x, i);
    MemberPrints(y, i);
    SortedHas(b.members, y[i]);
    QuoteInjective(m.name, y[i].name);
    LayoutTellsValue(m.value, y[i].value);
  }

  /** Two values with the same canonical text are the same value, member order apart; and conversely. */
  lemma {:induction false} CanonicalIdentifies(a: Value, b: Value)
    requires Proper(a) && Proper(b) && GateJson(a).Some?
    ensures GateJson(a) == GateJson(b) <==> Same(a, b)
  {
    if GateJson(a) == GateJson(b) {
      CanonicalAccepted(a);
      CanonicalAccepted(b);
      LayoutTellsValue(a, b);
    }
    if Same(a, b) { OrderForgotten(a, b); }
  }
}
