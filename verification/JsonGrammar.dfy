/** The scan against its grammar, both ways: what it accepts is a layout, and a layout is accepted or a duplicate. */
module JsonGrammar {
  import opened Seqs
  import opened Json
  import opened JsonScanner
  import opened JsonScannerMeaning

  // ----------------------------------------------------- what unique means

  /** Every value unique, no name in `keys`, and no two names alike. */
  ghost predicate NamesDiffer(fields: seq<Field>, keys: set<Text>) {
    && (forall i :: 0 <= i < |fields| ==> FieldUnique(fields[i], keys))
    && (forall i, j :: 0 <= i < j < |fields| ==> FieldName(fields[i]) != FieldName(fields[j]))
  }

  lemma {:induction false} NamesDifferMore(fields: seq<Field>, keys: set<Text>)
    requires fields != []
    ensures NamesDiffer(fields, keys) <==>
            FieldUnique(fields[0], keys) && NamesDiffer(fields[1..], keys + {FieldName(fields[0])})
  {
    var first, rest := fields[0], fields[1..];
    var more := keys + {FieldName(first)};
    if NamesDiffer(fields, keys) {
      forall i | 0 <= i < |rest| ensures FieldUnique(rest[i], more) { assert rest[i] == fields[i + 1]; }
    }
    if FieldUnique(first, keys) && NamesDiffer(rest, more) {
      forall i | 0 <= i < |fields| ensures FieldUnique(fields[i], keys) {
        if i > 0 { assert FieldUnique(rest[i - 1], more); }
      }
      forall i, j | 0 <= i < j < |fields| ensures FieldName(fields[i]) != FieldName(fields[j]) {
        assert FieldUnique(rest[j - 1], more);
      }
    }
  }

  lemma {:induction false} FieldsUniqueMeaning(fields: seq<Field>, keys: set<Text>)
    ensures FieldsUnique(fields, keys) <==> NamesDiffer(fields, keys)
  {
    if fields != [] {
      NamesDifferMore(fields, keys);
      FieldsUniqueMeaning(fields[1..], keys + {FieldName(fields[0])});
    }
  }

  /** An object is unique when its decoded names differ pairwise and every value is unique. */
  lemma {:induction false} UniqueObject(c: Layout)
    requires c.Object?
    ensures Unique(c) <==>
            && (forall i, j :: 0 <= i < j < |c.fields| ==> FieldName(c.fields[i]) != FieldName(c.fields[j]))
            && (forall i :: 0 <= i < |c.fields| ==> Unique(c.fields[i].value))
  {
    FieldsUniqueMeaning(c.fields, {});
    assert forall i :: 0 <= i < |c.fields| ==> (FieldUnique(c.fields[i], {}) <==> Unique(c.fields[i].value));
  }

  lemma {:induction false} UniqueArray(items: seq<Item>)
    ensures ItemsUnique(items) <==> forall i :: 0 <= i < |items| ==> Unique(items[i].value)
  {
    if items != [] {
      UniqueArray(items[1..]);
      assert forall i :: 1 <= i < |items| ==> items[i] == items[1..][i - 1];
    }
  }

  // --------------------------------------------------------------- soundness

  /** A layout read from `i` up to `next`, its leading space apart. */
  ghost predicate ReadsCore(s: Text, i: nat, c: Layout, next: nat) {
    Formed(c) && Unique(c) && At(s, i, Core(c)) && next == i + |Core(c)|
  }

  ghost predicate Reads(s: Text, i: nat, c: Layout, next: nat) {
    Formed(c) && Unique(c) && At(s, i, LayoutText(c)) && next == i + |LayoutText(c)|
  }

  ghost predicate ReadsItems(s: Text, i: nat, items: seq<Item>, next: nat) {
    items != [] && ItemsFormed(items) && ItemsUnique(items)
    && At(s, i, ItemsText(items)) && next == i + |ItemsText(items)|
  }

  ghost predicate ReadsField(s: Text, i: nat, f: Field, keys: set<Text>, next: nat) {
    FieldFormed(f) && FieldUnique(f, keys) && At(s, i, FieldText(f)) && next == i + |FieldText(f)|
  }

  ghost predicate ReadsFields(s: Text, i: nat, fields: seq<Field>, keys: set<Text>, next: nat) {
    fields != [] && FieldsFormed(fields) && FieldsUnique(fields, keys)
    && At(s, i, FieldsText(fields)) && next == i + |FieldsText(fields)|
  }

  lemma {:induction false} ValueSound(s: Text, i: nat)
    requires i <= |s| && ScanValue(s, i).Ok?
    ensures Reads(s, i, ScanValue(s, i).value, ScanValue(s, i).next)
    decreases |s| - i, 2
  {
    var j := Skip(s, i);
    var space := s[i..j];
    SkipIsBlank(s, i);
    CoreSound(s, j, space);
    AtSplit(s, i, space, Core(ScanCore(s, j, space).value));
  }

  lemma {:induction false} CoreSound(s: Text, i: nat, space: Text)
    requires i < |s| && Blank(space) && ScanCore(s, i, space).Ok?
    ensures ScanCore(s, i, space).value.space == space
    ensures ReadsCore(s, i, ScanCore(s, i, space).value, ScanCore(s, i, space).next)
    decreases |s| - i, 1
  {
    if s[i] == LBRACE {
      ObjectSound(s, i + 1, space);
    } else if s[i] == LBRACKET {
      ArraySound(s, i + 1, space);
    } else if s[i] == QUOTE {
      StringSound(s, i);
    } else if s[i] != TRUE[0] && s[i] != FALSE[0] && s[i] != NULL[0] {
      NumeralSound(s, i);
    }
  }

  lemma {:induction false} NumeralSound(s: Text, i: nat)
    requires i <= |s|
    ensures var k := NumberEnd(s, i); At(s, i, s[i..k]) && (i < k ==> NumberToken(s[i..k]))
  {
    NumberEndIsToken(s, i);
    SliceAt(s, i, NumberEnd(s, i));
  }

  /** Space and a closing mark. */
  lemma {:induction false} GapSound(s: Text, i: nat, mark: Unit)
    requires i <= |s| && Skip(s, i) < |s| && s[Skip(s, i)] == mark
    ensures var gap := s[i..Skip(s, i)];
            Blank(gap) && At(s, i, gap + [mark]) && Skip(s, i) + 1 == i + |gap + [mark]|
  {
    var gap := s[i..Skip(s, i)];
    SkipIsBlank(s, i);
    assert [mark] == [mark] + [];
    AtConsed(s, Skip(s, i), mark, []);
    AtSplit(s, i, gap, [mark]);
  }

  /** Space, a mark and what follows it. */
  lemma {:induction false} MarkSound(s: Text, i: nat, mark: Unit, tail: Text)
    requires i <= |s| && Skip(s, i) < |s| && s[Skip(s, i)] == mark && At(s, Skip(s, i) + 1, tail)
    ensures var gap := s[i..Skip(s, i)];
            Blank(gap) && At(s, i, gap + ([mark] + tail)) && Skip(s, i) + 1 + |tail| == i + |gap + ([mark] + tail)|
  {
    SkipIsBlank(s, i);
    AtConsed(s, Skip(s, i), mark, tail);
    AtSplit(s, i, s[i..Skip(s, i)], [mark] + tail);
  }

  lemma {:induction false} ArraySound(s: Text, i: nat, space: Text)
    requires 1 <= i <= |s| && s[i - 1] == LBRACKET && Blank(space) && ScanArray(s, i, space).Ok?
    ensures ScanArray(s, i, space).value.space == space
    ensures ReadsCore(s, i - 1, ScanArray(s, i, space).value, ScanArray(s, i, space).next)
    decreases |s| - i, 5
  {
    var k := Skip(s, i);
    if k < |s| && s[k] == RBRACKET {
      GapSound(s, i, RBRACKET);
      AtConsed(s, i - 1, LBRACKET, s[i..k] + [RBRACKET]);
    } else {
      ItemsSound(s, i);
      AtConsed(s, i - 1, LBRACKET, ItemsText(ScanItems(s, i).value));
    }
  }

  lemma {:induction false} ItemsSound(s: Text, i: nat)
    requires i <= |s| && ScanItems(s, i).Ok?
    ensures ReadsItems(s, i, ScanItems(s, i).value, ScanItems(s, i).next)
    decreases |s| - i, 3
  {
    ValueSound(s, i);
    var v := ScanValue(s, i);
    NextSound(s, i, v.value, v.next);
  }

  lemma {:induction false} NextSound(s: Text, i: nat, v: Layout, n: nat)
    requires i < n <= |s| && Reads(s, i, v, n) && ScanNext(s, v, n).Ok?
    ensures ReadsItems(s, i, ScanNext(s, v, n).value, ScanNext(s, v, n).next)
    decreases |s| - n, 4
  {
    var k := Skip(s, n);
    if s[k] == RBRACKET {
      GapSound(s, n, RBRACKET);
      LastItem(s, i, Item(v, s[n..k]));
    } else {
      ItemsSound(s, k + 1);
      var rest := ScanItems(s, k + 1).value;
      MarkSound(s, n, COMMA, ItemsText(rest));
      MoreItems(s, i, Item(v, s[n..k]), rest);
    }
  }

  lemma {:induction false} LastItem(s: Text, i: nat, item: Item)
    requires Formed(item.value) && Unique(item.value) && Blank(item.after) && At(s, i, LayoutText(item.value))
    requires At(s, i + |LayoutText(item.value)|, item.after + [RBRACKET])
    ensures ReadsItems(s, i, [item], i + |LayoutText(item.value)| + |item.after + [RBRACKET]|)
  {
    AtSplit(s, i, LayoutText(item.value), item.after + [RBRACKET]);
    assert [item][1..] == [];
  }

  lemma {:induction false} MoreItems(s: Text, i: nat, item: Item, rest: seq<Item>)
    requires Formed(item.value) && Unique(item.value) && Blank(item.after) && At(s, i, LayoutText(item.value))
    requires rest != [] && ItemsFormed(rest) && ItemsUnique(rest)
    requires At(s, i + |LayoutText(item.value)|, item.after + ([COMMA] + ItemsText(rest)))
    ensures ReadsItems(s, i, [item] + rest,
                       i + |LayoutText(item.value)| + |item.after + ([COMMA] + ItemsText(rest))|)
  {
    AtSplit(s, i, LayoutText(item.value), item.after + ([COMMA] + ItemsText(rest)));
    assert ([item] + rest)[1..] == rest;
  }

  lemma {:induction false} ObjectSound(s: Text, i: nat, space: Text)
    requires 1 <= i <= |s| && s[i - 1] == LBRACE && Blank(space) && ScanObject(s, i, space).Ok?
    ensures ScanObject(s, i, space).value.space == space
    ensures ReadsCore(s, i - 1, ScanObject(s, i, space).value, ScanObject(s, i, space).next)
    decreases |s| - i, 5
  {
    var k := Skip(s, i);
    if k < |s| && s[k] == RBRACE {
      GapSound(s, i, RBRACE);
      AtConsed(s, i - 1, LBRACE, s[i..k] + [RBRACE]);
    } else {
      FieldsSound(s, i, {});
      AtConsed(s, i - 1, LBRACE, FieldsText(ScanFields(s, i, {}).value));
    }
  }

  /** The pieces of a member laid end to end, from `i` to `end`. */
  ghost predicate FieldPlaced(s: Text, i: nat, f: Field, end: nat) {
    var j := i + |f.space|;
    var n := j + |Quoted(f.name)|;
    var k := n + |f.beforeColon|;
    && At(s, i, f.space) && At(s, j, Quoted(f.name)) && At(s, n, f.beforeColon)
    && k < |s| && s[k] == COLON && At(s, k + 1, LayoutText(f.value)) && end == k + 1 + |LayoutText(f.value)|
  }

  lemma {:induction false} FieldAt(s: Text, i: nat, f: Field)
    ensures At(s, i, FieldText(f)) <==> FieldPlaced(s, i, f, i + |FieldText(f)|)
    ensures forall end :: FieldPlaced(s, i, f, end) ==> end == i + |FieldText(f)|
  {
    var j := i + |f.space|;
    var n := j + |Quoted(f.name)|;
    var t4 := [COLON] + LayoutText(f.value);
    AtSplit(s, i, f.space, Quoted(f.name) + (f.beforeColon + t4));
    AtSplit(s, j, Quoted(f.name), f.beforeColon + t4);
    AtSplit(s, n, f.beforeColon, t4);
    AtConsed(s, n + |f.beforeColon|, COLON, LayoutText(f.value));
  }

  lemma {:induction false} FieldSound(s: Text, i: nat, keys: set<Text>)
    requires i <= |s| && ScanField(s, i, keys).Ok?
    ensures ReadsField(s, i, ScanField(s, i, keys).value, keys, ScanField(s, i, keys).next)
    decreases |s| - i, 3
  {
    var j := Skip(s, i);
    var n := ScanString(s, j).next;
    var k := Skip(s, n);
    ValueSound(s, k + 1);
    NamePlaced(s, i);
    SkipIsBlank(s, n);
    var v := ScanValue(s, k + 1);
    var f := Field(s[i..j], ScanString(s, j).value, s[n..k], v.value, []);
    assert ScanField(s, i, keys) == Ok(v.next, f);
    assert FieldPlaced(s, i, f, v.next);
    FieldReads(s, i, f, keys, v.next);
  }

  lemma {:induction false} FieldReads(s: Text, i: nat, f: Field, keys: set<Text>, end: nat)
    requires FieldFormed(f) && FieldUnique(f, keys) && FieldPlaced(s, i, f, end)
    ensures ReadsField(s, i, f, keys, end)
  {
    FieldAt(s, i, f);
  }

  lemma {:induction false} NamePlaced(s: Text, i: nat)
    requires i <= |s| && ScanString(s, Skip(s, i)).Ok?
    ensures var j := Skip(s, i);
            var name := ScanString(s, j);
            Blank(s[i..j]) && At(s, i, s[i..j]) && At(s, j, Quoted(name.value)) && name.next == j + |Quoted(name.value)|
  {
    SkipIsBlank(s, i);
    StringSound(s, Skip(s, i));
  }

  lemma {:induction false} FieldsSound(s: Text, i: nat, keys: set<Text>)
    requires i <= |s| && ScanFields(s, i, keys).Ok?
    ensures ReadsFields(s, i, ScanFields(s, i, keys).value, keys, ScanFields(s, i, keys).next)
    decreases |s| - i, 4
  {
    FieldSound(s, i, keys);
    var f := ScanField(s, i, keys);
    AfterSound(s, i, f.value, f.next, keys);
  }

  lemma {:induction false} AfterSound(s: Text, i: nat, f: Field, n: nat, keys: set<Text>)
    requires i < n <= |s| && ReadsField(s, i, f, keys, n)
    requires ScanAfter(s, f, n, keys + {FieldName(f)}).Ok?
    ensures var r := ScanAfter(s, f, n, keys + {FieldName(f)}); ReadsFields(s, i, r.value, keys, r.next)
    decreases |s| - n, 5
  {
    var k := Skip(s, n);
    var field := f.(after := s[n..k]);
    var more := keys + {FieldName(f)};
    if s[k] == RBRACE {
      GapSound(s, n, RBRACE);
      LastField(s, i, field, keys);
    } else {
      FieldsSound(s, k + 1, more);
      var rest := ScanFields(s, k + 1, more).value;
      MarkSound(s, n, COMMA, FieldsText(rest));
      MoreFields(s, i, field, rest, keys);
    }
  }

  lemma {:induction false} LastField(s: Text, i: nat, f: Field, keys: set<Text>)
    requires FieldFormed(f) && FieldUnique(f, keys) && Blank(f.after) && At(s, i, FieldText(f))
    requires At(s, i + |FieldText(f)|, f.after + [RBRACE])
    ensures ReadsFields(s, i, [f], keys, i + |FieldText(f)| + |f.after + [RBRACE]|)
  {
    AtSplit(s, i, FieldText(f), f.after + [RBRACE]);
    assert [f][1..] == [];
  }

  lemma {:induction false} MoreFields(s: Text, i: nat, f: Field, rest: seq<Field>, keys: set<Text>)
    requires FieldFormed(f) && FieldUnique(f, keys) && Blank(f.after) && At(s, i, FieldText(f))
    requires rest != [] && FieldsFormed(rest) && FieldsUnique(rest, keys + {FieldName(f)})
    requires At(s, i + |FieldText(f)|, f.after + ([COMMA] + FieldsText(rest)))
    ensures ReadsFields(s, i, [f] + rest, keys, i + |FieldText(f)| + |f.after + ([COMMA] + FieldsText(rest))|)
  {
    AtSplit(s, i, FieldText(f), f.after + ([COMMA] + FieldsText(rest)));
    assert ([f] + rest)[1..] == rest;
  }

  // ------------------------------------------------------------ completeness

  function Head(c: Layout): Unit
    requires Formed(c)
  {
    match c
    case StringToken(_, _) => QUOTE
    case Literal(_, word) => word[0]
    case Numeral(_, token) => token[0]
    case Array(_, _, _) => LBRACKET
    case Object(_, _, _) => LBRACE
  }

  lemma {:induction false} HeadMeaning(c: Layout)
    requires Formed(c)
    ensures Core(c) != [] && Core(c)[0] == Head(c) && !White(Head(c)) && Head(c) != RBRACKET
  {
  }

  lemma {:induction false} CoreAt(s: Text, i: nat, c: Layout)
    requires Formed(c) && At(s, i, LayoutText(c))
    ensures |LayoutText(c)| == |c.space| + |Core(c)|
    ensures var j := i + |c.space|;
            j < |s| && At(s, j, Core(c)) && s[j] == Head(c) && Skip(s, i) == j && s[i..j] == c.space
  {
    AtSplit(s, i, c.space, Core(c));
    HeadMeaning(c);
    SkipExact(s, i, c.space);
  }

  /** Space and a mark that is neither space nor part of a number. */
  lemma {:induction false} MarkExact(s: Text, n: nat, gap: Text, mark: Unit, tail: Text)
    requires Blank(gap) && !White(mark) && !NumberUnit(mark) && At(s, n, gap + ([mark] + tail))
    ensures n < |s| && !NumberUnit(s[n]) && |gap + ([mark] + tail)| == |gap| + 1 + |tail|
    ensures var k := n + |gap|;
            k < |s| && Skip(s, n) == k && s[n..k] == gap && s[k] == mark && At(s, k + 1, tail)
  {
    AtSplit(s, n, gap, [mark] + tail);
    AtConsed(s, n + |gap|, mark, tail);
    SkipExact(s, n, gap);
  }

  /** A number must not be followed by a unit it could absorb. */
  ghost predicate Ends(s: Text, n: nat, c: Layout) { c.Numeral? && n < |s| ==> !NumberUnit(s[n]) }

  ghost predicate Verdict<T>(r: Scan<T>, unique: bool, next: nat, value: T) {
    if unique then r == Ok(next, value) else r.Duplicate?
  }

  lemma {:induction false} ValueExact(s: Text, i: nat, c: Layout)
    requires Formed(c) && At(s, i, LayoutText(c)) && Ends(s, i + |LayoutText(c)|, c)
    ensures i <= |s| && Verdict(ScanValue(s, i), Unique(c), i + |LayoutText(c)|, c)
    decreases c, 2
  {
    CoreAt(s, i, c);
    CoreExact(s, i + |c.space|, c);
  }

  lemma {:induction false} CoreExact(s: Text, i: nat, c: Layout)
    requires Formed(c) && i < |s| && s[i] == Head(c) && At(s, i, Core(c)) && Ends(s, i + |Core(c)|, c)
    ensures Verdict(ScanCore(s, i, c.space), Unique(c), i + |Core(c)|, c)
    decreases c, 1
  {
    if c.StringToken? {
      StringExact(s, i, c.body);
      QuotedAt(s, i, c.body);
    } else if c.Numeral? {
      NumberEndExact(s, i, c.token);
    } else if c.Array? {
      ArrayExact(s, i, c);
    } else if c.Object? {
      ObjectExact(s, i, c);
    }
  }

  lemma {:induction false} ArrayExact(s: Text, i: nat, c: Layout)
    requires Formed(c) && c.Array? && i < |s| && At(s, i, Core(c))
    ensures Verdict(ScanArray(s, i + 1, c.space), Unique(c), i + |Core(c)|, c)
    decreases c, 0
  {
    if c.items == [] {
      AtConsed(s, i, LBRACKET, c.gap + [RBRACKET]);
      assert [RBRACKET] == [RBRACKET] + [];
      MarkExact(s, i + 1, c.gap, RBRACKET, []);
      assert ItemsUnique(c.items);
    } else {
      AtConsed(s, i, LBRACKET, ItemsText(c.items));
      FirstItem(s, i + 1, c.items);
      ItemsExact(s, i + 1, c.items);
    }
  }

  lemma {:induction false} FirstItem(s: Text, i: nat, items: seq<Item>)
    requires items != [] && ItemsFormed(items) && At(s, i, ItemsText(items))
    ensures i <= |s| && Skip(s, i) < |s| && s[Skip(s, i)] != RBRACKET
  {
    var c := items[0].value;
    var tail := items[0].after + if |items| == 1 then [RBRACKET] else [COMMA] + ItemsText(items[1..]);
    AtSplit(s, i, LayoutText(c), tail);
    CoreAt(s, i, c);
    HeadMeaning(c);
  }

  function ItemMark(rest: seq<Item>): Unit { if rest == [] then RBRACKET else COMMA }

  function ItemTail(rest: seq<Item>): Text { if rest == [] then [] else ItemsText(rest) }

  lemma {:induction false} ItemsSplit(items: seq<Item>)
    requires items != []
    ensures ItemsText(items)
            == LayoutText(items[0].value) + (items[0].after + ([ItemMark(items[1..])] + ItemTail(items[1..])))
  {
    assert [RBRACKET] == [RBRACKET] + [];
  }

  lemma {:induction false} ItemsExact(s: Text, i: nat, items: seq<Item>)
    requires items != [] && ItemsFormed(items) && At(s, i, ItemsText(items))
    ensures i <= |s| && Verdict(ScanItems(s, i), ItemsUnique(items), i + |ItemsText(items)|, items)
    decreases items, 4
  {
    var first, rest := items[0], items[1..];
    var n := i + |LayoutText(first.value)|;
    ItemsSplit(items);
    AtSplit(s, i, LayoutText(first.value), first.after + ([ItemMark(rest)] + ItemTail(rest)));
    MarkExact(s, n, first.after, ItemMark(rest), ItemTail(rest));
    ValueExact(s, i, first.value);
    NextExact(s, n, items);
    ItemsCombine(s, i, n, items, i + |ItemsText(items)|);
  }

  lemma {:induction false} NextExact(s: Text, n: nat, items: seq<Item>)
    requires items != [] && ItemsFormed(items)
    requires At(s, n, items[0].after + ([ItemMark(items[1..])] + ItemTail(items[1..])))
    ensures n <= |s| && Verdict(ScanNext(s, items[0].value, n), ItemsUnique(items[1..]),
                                n + |items[0].after| + 1 + |ItemTail(items[1..])|, items)
    decreases items, 3
  {
    var first, rest := items[0], items[1..];
    MarkExact(s, n, first.after, ItemMark(rest), ItemTail(rest));
    if rest != [] { ItemsExact(s, n + |first.after| + 1, rest); }
    NextVerdict(s, n, items, n + |first.after| + 1 + |ItemTail(rest)|);
  }

  lemma {:induction false} NextVerdict(s: Text, n: nat, items: seq<Item>, end: nat)
    requires items != [] && n <= |s|
    requires var k := n + |items[0].after|;
             && k < |s| && Skip(s, n) == k && s[n..k] == items[0].after && s[k] == ItemMark(items[1..])
             && end == k + 1 + |ItemTail(items[1..])|
             && (items[1..] != [] ==> Verdict(ScanItems(s, k + 1), ItemsUnique(items[1..]), end, items[1..]))
    ensures Verdict(ScanNext(s, items[0].value, n), ItemsUnique(items[1..]), end, items)
  {
    var first, rest := items[0], items[1..];
    assert items == [first] + rest;
    assert first == Item(first.value, first.after);
    if rest == [] {
      assert items == [first];
      assert ItemsUnique(rest);
    }
  }

  lemma {:induction false} ItemsCombine(s: Text, i: nat, n: nat, items: seq<Item>, end: nat)
    requires items != [] && i <= |s| && n <= |s|
    requires Verdict(ScanValue(s, i), Unique(items[0].value), n, items[0].value)
    requires Verdict(ScanNext(s, items[0].value, n), ItemsUnique(items[1..]), end, items)
    ensures Verdict(ScanItems(s, i), ItemsUnique(items), end, items)
  {
  }

  lemma {:induction false} ObjectExact(s: Text, i: nat, c: Layout)
    requires Formed(c) && c.Object? && i < |s| && At(s, i, Core(c))
    ensures Verdict(ScanObject(s, i + 1, c.space), Unique(c), i + |Core(c)|, c)
    decreases c, 0
  {
    if c.fields == [] {
      AtConsed(s, i, LBRACE, c.gap + [RBRACE]);
      assert [RBRACE] == [RBRACE] + [];
      MarkExact(s, i + 1, c.gap, RBRACE, []);
      assert FieldsUnique(c.fields, {});
    } else {
      AtConsed(s, i, LBRACE, FieldsText(c.fields));
      FirstField(s, i + 1, c.fields);
      FieldsExact(s, i + 1, c.fields, {});
    }
  }

  lemma {:induction false} NameAt(s: Text, i: nat, f: Field, end: nat)
    requires FieldFormed(f) && FieldPlaced(s, i, f, end)
    ensures var j := i + |f.space|;
            && j < |s| && Skip(s, i) == j && s[i..j] == f.space && s[j] == QUOTE
            && ScanString(s, j) == Ok(j + |Quoted(f.name)|, f.name) && j + |Quoted(f.name)| <= |s|
  {
    var j := i + |f.space|;
    QuotedAt(s, j, f.name);
    SkipExact(s, i, f.space);
    StringExact(s, j, f.name);
  }

  lemma {:induction false} FirstField(s: Text, i: nat, fields: seq<Field>)
    requires fields != [] && FieldsFormed(fields) && At(s, i, FieldsText(fields))
    ensures i <= |s| && Skip(s, i) < |s| && s[Skip(s, i)] != RBRACE
  {
    var f := fields[0];
    var tail := f.after + if |fields| == 1 then [RBRACE] else [COMMA] + FieldsText(fields[1..]);
    AtSplit(s, i, FieldText(f), tail);
    FieldAt(s, i, f);
    NameAt(s, i, f, i + |FieldText(f)|);
  }

  /** Where the scan of a member finds its colon, and where its value starts. */
  lemma {:induction false} ColonAt(s: Text, i: nat, f: Field, end: nat)
    requires FieldFormed(f) && FieldPlaced(s, i, f, end)
    ensures var n := i + |f.space| + |Quoted(f.name)|;
            var k := n + |f.beforeColon|;
            k < |s| && Skip(s, n) == k && s[n..k] == f.beforeColon && s[k] == COLON
  {
    SkipExact(s, i + |f.space| + |Quoted(f.name)|, f.beforeColon);
  }

  lemma {:induction false} FieldExact(s: Text, i: nat, f: Field, keys: set<Text>, end: nat)
    requires FieldFormed(f) && FieldPlaced(s, i, f, end) && Ends(s, end, f.value)
    ensures i <= |s| && Verdict(ScanField(s, i, keys), FieldUnique(f, keys), end, f.(after := []))
    decreases f, 3
  {
    var n := i + |f.space| + |Quoted(f.name)|;
    NameAt(s, i, f, end);
    ColonAt(s, i, f, end);
    ValueExact(s, n + |f.beforeColon| + 1, f.value);
    FieldVerdict(s, i, n, f, keys, end);
  }

  lemma {:induction false} FieldVerdict(s: Text, i: nat, n: nat, f: Field, keys: set<Text>, end: nat)
    requires Decode(f.name).Some? && i <= n <= |s|
    requires var j := i + |f.space|;
             j <= |s| && Skip(s, i) == j && s[i..j] == f.space && ScanString(s, j) == Ok(n, f.name)
    requires var k := n + |f.beforeColon|;
             && k < |s| && Skip(s, n) == k && s[n..k] == f.beforeColon && s[k] == COLON
             && Verdict(ScanValue(s, k + 1), Unique(f.value), end, f.value)
    ensures Verdict(ScanField(s, i, keys), FieldUnique(f, keys), end, f.(after := []))
  {
  }

  function FieldMark(rest: seq<Field>): Unit { if rest == [] then RBRACE else COMMA }

  function FieldTail(rest: seq<Field>): Text { if rest == [] then [] else FieldsText(rest) }

  lemma {:induction false} FieldsSplit(fields: seq<Field>)
    requires fields != []
    ensures FieldsText(fields)
            == FieldText(fields[0]) + (fields[0].after + ([FieldMark(fields[1..])] + FieldTail(fields[1..])))
  {
    assert [RBRACE] == [RBRACE] + [];
  }

  lemma {:induction false} FieldsExact(s: Text, i: nat, fields: seq<Field>, keys: set<Text>)
    requires fields != [] && FieldsFormed(fields) && At(s, i, FieldsText(fields))
    ensures i <= |s| && Verdict(ScanFields(s, i, keys), FieldsUnique(fields, keys), i + |FieldsText(fields)|, fields)
    decreases fields, 4
  {
    var first, rest := fields[0], fields[1..];
    var n := i + |FieldText(first)|;
    FieldsSplit(fields);
    AtSplit(s, i, FieldText(first), first.after + ([FieldMark(rest)] + FieldTail(rest)));
    MarkExact(s, n, first.after, FieldMark(rest), FieldTail(rest));
    FieldAt(s, i, first);
    FieldExact(s, i, first, keys, n);
    AfterExact(s, n, fields, keys + {FieldName(first)});
    FieldsCombine(s, i, n, fields, keys, i + |FieldsText(fields)|);
  }

  lemma {:induction false} AfterExact(s: Text, n: nat, fields: seq<Field>, keys: set<Text>)
    requires fields != [] && FieldsFormed(fields)
    requires At(s, n, fields[0].after + ([FieldMark(fields[1..])] + FieldTail(fields[1..])))
    ensures n <= |s| && Verdict(ScanAfter(s, fields[0].(after := []), n, keys), FieldsUnique(fields[1..], keys),
                                n + |fields[0].after| + 1 + |FieldTail(fields[1..])|, fields)
    decreases fields, 3
  {
    var first, rest := fields[0], fields[1..];
    MarkExact(s, n, first.after, FieldMark(rest), FieldTail(rest));
    if rest != [] { FieldsExact(s, n + |first.after| + 1, rest, keys); }
    AfterVerdict(s, n, fields, keys, n + |first.after| + 1 + |FieldTail(rest)|);
  }

  lemma {:induction false} FieldsCombine(s: Text, i: nat, n: nat, fields: seq<Field>, keys: set<Text>, end: nat)
    requires fields != [] && i <= |s| && n <= |s|
    requires Verdict(ScanField(s, i, keys), FieldUnique(fields[0], keys), n, fields[0].(after := []))
    requires Verdict(ScanAfter(s, fields[0].(after := []), n, keys + {FieldName(fields[0])}),
                     FieldsUnique(fields[1..], keys + {FieldName(fields[0])}), end, fields)
    ensures Verdict(ScanFields(s, i, keys), FieldsUnique(fields, keys), end, fields)
  {
  }

  lemma {:induction false} AfterVerdict(s: Text, n: nat, fields: seq<Field>, keys: set<Text>, end: nat)
    requires fields != [] && n <= |s|
    requires var k := n + |fields[0].after|;
             && k < |s| && Skip(s, n) == k && s[n..k] == fields[0].after && s[k] == FieldMark(fields[1..])
             && end == k + 1 + |FieldTail(fields[1..])|
             && (fields[1..] != [] ==>
                   Verdict(ScanFields(s, k + 1, keys), FieldsUnique(fields[1..], keys), end, fields[1..]))
    ensures Verdict(ScanAfter(s, fields[0].(after := []), n, keys), FieldsUnique(fields[1..], keys), end, fields)
  {
    var first, rest := fields[0], fields[1..];
    assert fields == [first] + rest;
    assert first.(after := []).(after := first.after) == first;
    if rest == [] {
      assert fields == [first];
      assert FieldsUnique(rest, keys);
    }
  }

  // ------------------------------------------------------------ the theorems

  /** On every text of the grammar the scan accepts exactly when no object repeats a decoded name. */
  lemma {:induction false} AcceptsExactlyUnique(c: Layout, tail: Text)
    requires Formed(c) && Blank(tail)
    ensures Verdict(ScanText(LayoutText(c) + tail), Unique(c), |LayoutText(c) + tail|, c)
  {
    var s := LayoutText(c) + tail;
    var n := |LayoutText(c)|;
    SliceAt(s, 0, |s|);
    assert s[0..|s|] == s;
    AtSplit(s, 0, LayoutText(c), tail);
    if tail != [] { assert s[n] == tail[0]; }
    ValueExact(s, 0, c);
    SkipExact(s, n, tail);
  }

  /** Whatever the scan accepts is a text of the grammar in which no object repeats a decoded name. */
  lemma {:induction false} AcceptedIsUnique(s: Text) returns (tail: Text)
    requires ScanText(s).Ok?
    ensures var c := ScanText(s).value; Formed(c) && Unique(c) && Blank(tail) && s == LayoutText(c) + tail
  {
    ValueSound(s, 0);
    var v := ScanValue(s, 0);
    SkipIsBlank(s, v.next);
    AtFits(s, 0, LayoutText(v.value));
    tail := s[v.next..];
    assert s[v.next..Skip(s, v.next)] == tail;
    assert s == s[0..v.next] + tail;
  }
}
