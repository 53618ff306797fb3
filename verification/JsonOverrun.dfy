/** Exactly which texts leave the index of the duplicate-key scan past their end, by their grammar alone. */
module JsonOverrun {
  import opened Seqs
  import opened Json
  import opened JsonScanner
  import opened JsonScannerMeaning
  import opened JsonGrammar

  // ---------------------------------------------------------- texts that are cut

  /** The string that starts at `j` is still open at `k`, where the text cuts a unicode escape short. */
  ghost predicate CutEscapeAt(s: Text, j: nat, k: nat) { j + 1 <= k <= |s| && Open(s[j + 1..k]) && CutAt(s, k) }

  /** A string token starts at `j`, and the text ends inside one of its unicode escapes. */
  ghost predicate CutString(s: Text, j: nat) { j < |s| && s[j] == QUOTE && exists k :: CutEscapeAt(s, j, k) }

  /** What lies before a string: the containers open there, with the items and members before it. */
  datatype Prefix = InString(space: Text) | InArray(space: Text, items: Items) | InObject(space: Text, members: Members)

  datatype Items = Inside(value: Prefix) | Past(item: Item, rest: Items)

  /** In an object the string is a member's name, or lies in a member's value. */
  datatype Members =
    | InName(gap: Text)
    | InValue(gap: Text, name: Text, beforeColon: Text, value: Prefix)
    | PastField(field: Field, rest: Members)

  /** The text up to the string's opening quote. */
  function PrefixText(p: Prefix): Text {
    match p
    case InString(space) => space
    case InArray(space, items) => space + ([LBRACKET] + OpenItems(items))
    case InObject(space, members) => space + ([LBRACE] + OpenMembers(members))
  }

  function OpenItems(c: Items): Text {
    match c
    case Inside(value) => PrefixText(value)
    case Past(item, rest) => LayoutText(item.value) + (item.after + ([COMMA] + OpenItems(rest)))
  }

  function OpenMembers(c: Members): Text {
    match c
    case InName(gap) => gap
    case InValue(gap, name, beforeColon, value) =>
      gap + (Quoted(name) + (beforeColon + ([COLON] + PrefixText(value))))
    case PastField(f, rest) => FieldText(f) + (f.after + ([COMMA] + OpenMembers(rest)))
  }

  /** Everything before the string is well formed, and no object repeats a name so far. */
  predicate PrefixFormed(p: Prefix) {
    && Blank(p.space)
    && match p
       case InString(_) => true
       case InArray(_, items) => ItemsOpenFormed(items)
       case InObject(_, members) => MembersFormed(members, {})
  }

  predicate ItemsOpenFormed(c: Items) {
    match c
    case Inside(value) => PrefixFormed(value)
    case Past(item, rest) => Formed(item.value) && Unique(item.value) && Blank(item.after) && ItemsOpenFormed(rest)
  }

  predicate MembersFormed(c: Members, keys: set<Text>)
    decreases c
  {
    match c
    case InName(gap) => Blank(gap)
    case InValue(gap, name, beforeColon, value) =>
      && Blank(gap) && Decode(name).Some? && Decode(name).value !in keys && Blank(beforeColon) && PrefixFormed(value)
    case PastField(f, rest) =>
      FieldFormed(f) && FieldUnique(f, keys) && Blank(f.after) && MembersFormed(rest, keys + {FieldName(f)})
  }

  ghost predicate Overruns<T>(r: Scan<T>, s: Text) { r.Bad? && r.at == |s| + 1 }

  lemma {:induction false} StringOverruns(s: Text, i: nat)
    requires i <= |s|
    ensures Overruns(ScanString(s, i), s) <==> CutString(s, i)
  {
    if i < |s| && s[i] == QUOTE {
      OverrunMeaning(s, i + 1);
      if k :| i + 1 <= k <= |s| && Open(s[i + 1..k]) && CutAt(s, k) { assert CutEscapeAt(s, i, k); }
    }
  }

  // ------------------------------------------- where an overrun passes through the scan

  /** The next unit that is not space is this one. */
  predicate NextIs(s: Text, i: nat, mark: Unit)
    requires i <= |s|
  {
    Skip(s, i) < |s| && s[Skip(s, i)] == mark
  }

  lemma {:induction false} ValuePasses(s: Text, i: nat)
    requires i <= |s|
    ensures Overruns(ScanValue(s, i), s) <==>
            Skip(s, i) < |s| && Overruns(ScanCore(s, Skip(s, i), s[i..Skip(s, i)]), s)
  {
  }

  lemma {:induction false} ArrayPasses(s: Text, i: nat, space: Text)
    requires i <= |s|
    ensures Overruns(ScanArray(s, i, space), s) <==> !NextIs(s, i, RBRACKET) && Overruns(ScanItems(s, i), s)
  {
  }

  lemma {:induction false} ObjectPasses(s: Text, i: nat, space: Text)
    requires i <= |s|
    ensures Overruns(ScanObject(s, i, space), s) <==> !NextIs(s, i, RBRACE) && Overruns(ScanFields(s, i, {}), s)
  {
  }

  lemma {:induction false} CorePasses(s: Text, j: nat, space: Text)
    requires j < |s|
    ensures Overruns(ScanCore(s, j, space), s) <==>
            if s[j] == LBRACE then !NextIs(s, j + 1, RBRACE) && Overruns(ScanFields(s, j + 1, {}), s)
            else if s[j] == LBRACKET then !NextIs(s, j + 1, RBRACKET) && Overruns(ScanItems(s, j + 1), s)
            else CutString(s, j)
  {
    if s[j] == LBRACE {
      ObjectPasses(s, j + 1, space);
    } else if s[j] == LBRACKET {
      ArrayPasses(s, j + 1, space);
    } else if s[j] == QUOTE {
      StringOverruns(s, j);
    }
  }

  /** What a value that overruns starts with, and where the overrun lies. */
  ghost predicate OverrunsFrom(s: Text, j: nat) {
    && j < |s|
    && if s[j] == LBRACE then !NextIs(s, j + 1, RBRACE) && Overruns(ScanFields(s, j + 1, {}), s)
       else if s[j] == LBRACKET then !NextIs(s, j + 1, RBRACKET) && Overruns(ScanItems(s, j + 1), s)
       else CutString(s, j)
  }

  lemma {:induction false} ValueCases(s: Text, i: nat)
    requires i <= |s|
    ensures Overruns(ScanValue(s, i), s) <==> OverrunsFrom(s, Skip(s, i))
  {
    ValuePasses(s, i);
    if Skip(s, i) < |s| { CorePasses(s, Skip(s, i), s[i..Skip(s, i)]); }
  }

  lemma {:induction false} NextPasses(s: Text, v: Layout, i: nat)
    requires i <= |s|
    ensures Overruns(ScanNext(s, v, i), s) <==> NextIs(s, i, COMMA) && Overruns(ScanItems(s, Skip(s, i) + 1), s)
  {
  }

  lemma {:induction false} ItemsPass(s: Text, i: nat)
    requires i <= |s|
    ensures var v := ScanValue(s, i);
            Overruns(ScanItems(s, i), s) <==>
            if !v.Ok? then Overruns(v, s)
            else NextIs(s, v.next, COMMA) && Overruns(ScanItems(s, Skip(s, v.next) + 1), s)
  {
    var v := ScanValue(s, i);
    if v.Ok? { NextPasses(s, v.value, v.next); }
  }

  lemma {:induction false} AfterPasses(s: Text, f: Field, i: nat, keys: set<Text>)
    requires i <= |s|
    ensures Overruns(ScanAfter(s, f, i, keys), s) <==>
            NextIs(s, i, COMMA) && Overruns(ScanFields(s, Skip(s, i) + 1, keys), s)
  {
  }

  lemma {:induction false} FieldsPass(s: Text, i: nat, keys: set<Text>)
    requires i <= |s|
    ensures var f := ScanField(s, i, keys);
            Overruns(ScanFields(s, i, keys), s) <==>
            if !f.Ok? then Overruns(f, s)
            else NextIs(s, f.next, COMMA)
                 && Overruns(ScanFields(s, Skip(s, f.next) + 1, keys + {FieldName(f.value)}), s)
  {
    var f := ScanField(s, i, keys);
    if f.Ok? { AfterPasses(s, f.value, f.next, keys + {FieldName(f.value)}); }
  }

  lemma {:induction false} FieldPasses(s: Text, i: nat, keys: set<Text>)
    requires i <= |s|
    ensures var name := ScanString(s, Skip(s, i));
            Overruns(ScanField(s, i, keys), s) <==>
            if !name.Ok? then CutString(s, Skip(s, i))
            else && Decode(name.value).value !in keys && NextIs(s, name.next, COLON)
                 && Overruns(ScanValue(s, Skip(s, name.next) + 1), s)
  {
    StringOverruns(s, Skip(s, i));
  }

  // ------------------------------------------------- the same, place by place

  /** From `i` the text goes through this prefix into a string that it cuts short. */
  ghost predicate CutAfter(s: Text, i: nat, p: Prefix)
    decreases p
  {
    var j := i + |p.space|;
    && Blank(p.space) && At(s, i, p.space)
    && match p
       case InString(_) => CutString(s, j)
       case InArray(_, items) => j < |s| && s[j] == LBRACKET && ItemsCutAfter(s, j + 1, items)
       case InObject(_, members) => j < |s| && s[j] == LBRACE && MembersCutAfter(s, j + 1, members, {})
  }

  ghost predicate ItemsCutAfter(s: Text, i: nat, c: Items)
    decreases c
  {
    match c
    case Inside(value) => CutAfter(s, i, value)
    case Past(item, rest) => ItemAt(s, i, item) && ItemsCutAfter(s, PastItem(i, item), rest)
  }

  ghost predicate MembersCutAfter(s: Text, i: nat, c: Members, keys: set<Text>)
    decreases c
  {
    match c
    case InName(gap) => Blank(gap) && At(s, i, gap) && CutString(s, i + |gap|)
    case InValue(gap, name, beforeColon, value) =>
      && Blank(gap) && At(s, i, gap) && NamedAt(s, i + |gap|, name, beforeColon, keys)
      && CutAfter(s, i + |gap| + |Quoted(name)| + |beforeColon| + 1, value)
    case PastField(f, rest) =>
      MemberAt(s, i, f, keys) && MembersCutAfter(s, PastMember(i, f), rest, keys + {FieldName(f)})
  }

  function PastItem(i: nat, item: Item): nat { i + |LayoutText(item.value)| + |item.after| + 1 }

  function PastMember(i: nat, f: Field): nat { i + |FieldText(f)| + |f.after| + 1 }

  /** Space and a comma follow at `n`. */
  ghost predicate CommaAt(s: Text, n: nat, gap: Text) {
    Blank(gap) && At(s, n, gap) && n + |gap| < |s| && s[n + |gap|] == COMMA
  }

  ghost predicate ItemAt(s: Text, i: nat, item: Item) {
    && Formed(item.value) && Unique(item.value) && At(s, i, LayoutText(item.value))
    && CommaAt(s, i + |LayoutText(item.value)|, item.after)
  }

  ghost predicate MemberAt(s: Text, i: nat, f: Field, keys: set<Text>) {
    FieldFormed(f) && FieldUnique(f, keys) && At(s, i, FieldText(f)) && CommaAt(s, i + |FieldText(f)|, f.after)
  }

  ghost predicate NamedAt(s: Text, j: nat, name: Text, beforeColon: Text, keys: set<Text>) {
    var n := j + |Quoted(name)|;
    && Decode(name).Some? && Decode(name).value !in keys && At(s, j, Quoted(name))
    && Blank(beforeColon) && At(s, n, beforeColon) && n + |beforeColon| < |s| && s[n + |beforeColon|] == COLON
  }

  /** A text, a second text, a mark and what follows. */
  lemma {:induction false} AtMarked(s: Text, i: nat, a: Text, b: Text, mark: Unit, tail: Text)
    ensures |a + (b + ([mark] + tail))| == |a| + |b| + 1 + |tail|
    ensures At(s, i, a + (b + ([mark] + tail))) <==>
            var k := i + |a| + |b|;
            At(s, i, a) && At(s, i + |a|, b) && k < |s| && s[k] == mark && At(s, k + 1, tail)
  {
    AtSplit(s, i, a, b + ([mark] + tail));
    AtSplit(s, i + |a|, b, [mark] + tail);
    AtConsed(s, i + |a| + |b|, mark, tail);
  }

  lemma {:induction false} AtOpened(s: Text, i: nat, space: Text, mark: Unit, tail: Text)
    ensures |space + ([mark] + tail)| == |space| + 1 + |tail|
    ensures At(s, i, space + ([mark] + tail)) <==>
            At(s, i, space) && i + |space| < |s| && s[i + |space|] == mark && At(s, i + |space| + 1, tail)
  {
    AtSplit(s, i, space, [mark] + tail);
    AtConsed(s, i + |space|, mark, tail);
  }

  ghost predicate CutText(s: Text, i: nat, formed: bool, text: Text) {
    formed && At(s, i, text) && CutString(s, i + |text|)
  }

  lemma {:induction false} PrefixMeaning(s: Text, i: nat, p: Prefix)
    ensures CutAfter(s, i, p) <==> CutText(s, i, PrefixFormed(p), PrefixText(p))
    decreases p
  {
    match p
    case InString(_) =>
    case InArray(space, items) =>
      ItemsMeaning(s, i + |space| + 1, items);
      ArrayMeaning(s, i, space, items);
    case InObject(space, members) =>
      MembersMeaning(s, i + |space| + 1, members, {});
      ObjectMeaning(s, i, space, members);
  }

  lemma {:induction false} ArrayMeaning(s: Text, i: nat, space: Text, c: Items)
    requires var j := i + |space| + 1; ItemsCutAfter(s, j, c) <==> CutText(s, j, ItemsOpenFormed(c), OpenItems(c))
    ensures var p := InArray(space, c); CutAfter(s, i, p) <==> CutText(s, i, PrefixFormed(p), PrefixText(p))
  {
    AtOpened(s, i, space, LBRACKET, OpenItems(c));
  }

  lemma {:induction false} ObjectMeaning(s: Text, i: nat, space: Text, c: Members)
    requires var j := i + |space| + 1;
             MembersCutAfter(s, j, c, {}) <==> CutText(s, j, MembersFormed(c, {}), OpenMembers(c))
    ensures var p := InObject(space, c); CutAfter(s, i, p) <==> CutText(s, i, PrefixFormed(p), PrefixText(p))
  {
    AtOpened(s, i, space, LBRACE, OpenMembers(c));
  }

  lemma {:induction false} ItemsMeaning(s: Text, i: nat, c: Items)
    ensures ItemsCutAfter(s, i, c) <==> CutText(s, i, ItemsOpenFormed(c), OpenItems(c))
    decreases c
  {
    match c
    case Inside(value) => PrefixMeaning(s, i, value);
    case Past(item, rest) =>
      AtMarked(s, i, LayoutText(item.value), item.after, COMMA, OpenItems(rest));
      ItemsMeaning(s, PastItem(i, item), rest);
  }

  lemma {:induction false} MembersMeaning(s: Text, i: nat, c: Members, keys: set<Text>)
    ensures MembersCutAfter(s, i, c, keys) <==> CutText(s, i, MembersFormed(c, keys), OpenMembers(c))
    decreases c
  {
    match c
    case InName(_) =>
    case InValue(gap, name, beforeColon, value) =>
      PrefixMeaning(s, i + |gap| + |Quoted(name)| + |beforeColon| + 1, value);
      NamedMeaning(s, i, c, keys);
    case PastField(f, rest) =>
      MembersMeaning(s, PastMember(i, f), rest, keys + {FieldName(f)});
      PastMeaning(s, i, f, rest, keys);
  }

  lemma {:induction false} NamedMeaning(s: Text, i: nat, c: Members, keys: set<Text>)
    requires c.InValue?
    requires var next := i + |c.gap| + |Quoted(c.name)| + |c.beforeColon| + 1;
             CutAfter(s, next, c.value) <==> CutText(s, next, PrefixFormed(c.value), PrefixText(c.value))
    ensures MembersCutAfter(s, i, c, keys) <==> CutText(s, i, MembersFormed(c, keys), OpenMembers(c))
  {
    AtSplit(s, i, c.gap, Quoted(c.name) + (c.beforeColon + ([COLON] + PrefixText(c.value))));
    AtMarked(s, i + |c.gap|, Quoted(c.name), c.beforeColon, COLON, PrefixText(c.value));
  }

  lemma {:induction false} PastMeaning(s: Text, i: nat, f: Field, rest: Members, keys: set<Text>)
    requires var next, more := PastMember(i, f), keys + {FieldName(f)};
             MembersCutAfter(s, next, rest, more) <==> CutText(s, next, MembersFormed(rest, more), OpenMembers(rest))
    ensures var c := PastField(f, rest);
            MembersCutAfter(s, i, c, keys) <==> CutText(s, i, MembersFormed(c, keys), OpenMembers(c))
  {
    AtMarked(s, i, FieldText(f), f.after, COMMA, OpenMembers(rest));
  }

  // --------------------------------------------------------- a cut text overruns

  function OpeningMark(p: Prefix): Unit {
    match p
    case InString(_) => QUOTE
    case InArray(_, _) => LBRACKET
    case InObject(_, _) => LBRACE
  }

  /** Where the text of a prefix starts after its space. */
  lemma {:induction false} PrefixHead(s: Text, i: nat, p: Prefix)
    requires CutAfter(s, i, p)
    ensures var j := i + |p.space|; j < |s| && Skip(s, i) == j && s[i..j] == p.space && s[j] == OpeningMark(p)
  {
    SkipExact(s, i, p.space);
  }

  /** Space and a comma: the scan skips to it, and no number runs into it. */
  lemma {:induction false} CommaFound(s: Text, n: nat, gap: Text)
    requires CommaAt(s, n, gap)
    ensures n < |s| && !NumberUnit(s[n]) && Skip(s, n) == n + |gap| && NextIs(s, n, COMMA)
  {
    SkipExact(s, n, gap);
    if gap != [] { assert s[n] == gap[0]; }
  }

  lemma {:induction false} ItemRead(s: Text, i: nat, item: Item)
    requires ItemAt(s, i, item)
    ensures var n := i + |LayoutText(item.value)|;
            && i <= n < |s| && ScanValue(s, i) == Ok(n, item.value)
            && NextIs(s, n, COMMA) && Skip(s, n) + 1 == PastItem(i, item) <= |s|
  {
    CommaFound(s, i + |LayoutText(item.value)|, item.after);
    ValueExact(s, i, item.value);
  }

  lemma {:induction false} FieldRead(s: Text, i: nat, f: Field, keys: set<Text>)
    requires MemberAt(s, i, f, keys)
    ensures var n := i + |FieldText(f)|;
            && i <= n < |s| && ScanField(s, i, keys) == Ok(n, f.(after := []))
            && NextIs(s, n, COMMA) && Skip(s, n) + 1 == PastMember(i, f) <= |s|
  {
    var n := i + |FieldText(f)|;
    CommaFound(s, n, f.after);
    FieldAt(s, i, f);
    FieldExact(s, i, f, keys, n);
  }

  lemma {:induction false} NameRead(s: Text, j: nat, name: Text, beforeColon: Text, keys: set<Text>)
    requires NamedAt(s, j, name, beforeColon, keys)
    ensures var n := j + |Quoted(name)|;
            && j < n <= |s| && s[j] == QUOTE && ScanString(s, j) == Ok(n, name)
            && NextIs(s, n, COLON) && Skip(s, n) == n + |beforeColon|
  {
    StringExact(s, j, name);
    QuotedAt(s, j, name);
    SkipExact(s, j + |Quoted(name)|, beforeColon);
  }

  /** An array that is cut is not closed at once. */
  lemma {:induction false} ItemsStart(s: Text, i: nat, c: Items)
    requires ItemsCutAfter(s, i, c)
    ensures i <= |s| && !NextIs(s, i, RBRACKET)
  {
    match c
    case Inside(value) => PrefixHead(s, i, value);
    case Past(item, _) =>
      CoreAt(s, i, item.value);
      HeadMeaning(item.value);
  }

  lemma {:induction false} NamedStart(s: Text, i: nat, gap: Text)
    requires Blank(gap) && At(s, i, gap) && i + |gap| < |s| && s[i + |gap|] == QUOTE
    ensures i <= |s| && !NextIs(s, i, RBRACE) && Skip(s, i) == i + |gap|
  {
    SkipExact(s, i, gap);
  }

  lemma {:induction false} FieldStart(s: Text, i: nat, f: Field, keys: set<Text>)
    requires MemberAt(s, i, f, keys)
    ensures i <= |s| && !NextIs(s, i, RBRACE)
  {
    FieldAt(s, i, f);
    NameAt(s, i, f, i + |FieldText(f)|);
  }

  /** An object that is cut is not closed at once. */
  lemma {:induction false} MembersStart(s: Text, i: nat, c: Members)
    requires MembersCutAfter(s, i, c, {})
    ensures i <= |s| && !NextIs(s, i, RBRACE)
  {
    match c
    case InName(gap) => NamedStart(s, i, gap);
    case InValue(gap, name, beforeColon, _) =>
      NameRead(s, i + |gap|, name, beforeColon, {});
      NamedStart(s, i, gap);
    case PastField(f, _) => FieldStart(s, i, f, {});
  }

  lemma {:induction false} CutOverruns(s: Text, i: nat, p: Prefix)
    requires CutAfter(s, i, p)
    ensures i <= |s| && Overruns(ScanValue(s, i), s)
    decreases p
  {
    PrefixHead(s, i, p);
    var j := i + |p.space|;
    if p.InArray? {
      ItemsCutOverruns(s, j + 1, p.items);
      ItemsStart(s, j + 1, p.items);
    } else if p.InObject? {
      MembersCutOverruns(s, j + 1, p.members, {});
      MembersStart(s, j + 1, p.members);
    }
    ValueCases(s, i);
  }

  lemma {:induction false} ItemsCutOverruns(s: Text, i: nat, c: Items)
    requires ItemsCutAfter(s, i, c)
    ensures i <= |s| && Overruns(ScanItems(s, i), s)
    decreases c
  {
    match c
    case Inside(value) =>
      CutOverruns(s, i, value);
      ItemsPass(s, i);
    case Past(item, rest) =>
      ItemRead(s, i, item);
      ItemsCutOverruns(s, PastItem(i, item), rest);
      ItemsPass(s, i);
  }

  lemma {:induction false} MembersCutOverruns(s: Text, i: nat, c: Members, keys: set<Text>)
    requires MembersCutAfter(s, i, c, keys)
    ensures i <= |s| && Overruns(ScanFields(s, i, keys), s)
    decreases c
  {
    match c
    case InName(gap) => NameOverruns(s, i, gap, keys);
    case InValue(gap, name, beforeColon, value) =>
      CutOverruns(s, i + |gap| + |Quoted(name)| + |beforeColon| + 1, value);
      ValueOverruns(s, i, gap, name, beforeColon, keys);
    case PastField(f, rest) =>
      MembersCutOverruns(s, PastMember(i, f), rest, keys + {FieldName(f)});
      RestOverruns(s, i, f, keys);
  }

  lemma {:induction false} NameOverruns(s: Text, i: nat, gap: Text, keys: set<Text>)
    requires Blank(gap) && At(s, i, gap) && CutString(s, i + |gap|)
    ensures i <= |s| && Overruns(ScanFields(s, i, keys), s)
  {
    SkipExact(s, i, gap);
    StringOverruns(s, i + |gap|);
    FieldPasses(s, i, keys);
    FieldFails(s, i, keys);
  }

  lemma {:induction false} FieldFails(s: Text, i: nat, keys: set<Text>)
    requires i <= |s| && Overruns(ScanField(s, i, keys), s)
    ensures Overruns(ScanFields(s, i, keys), s)
  {
  }

  lemma {:induction false} RestFails(s: Text, i: nat, f: Field, n: nat, keys: set<Text>)
    requires i < n <= |s| && ScanField(s, i, keys) == Ok(n, f) && NextIs(s, n, COMMA)
    requires Overruns(ScanFields(s, Skip(s, n) + 1, keys + {FieldName(f)}), s)
    ensures Overruns(ScanFields(s, i, keys), s)
  {
    AfterPasses(s, f, n, keys + {FieldName(f)});
  }

  lemma {:induction false} ValueFails(s: Text, i: nat, name: Text, n: nat, keys: set<Text>)
    requires i <= |s| && n <= |s| && ScanString(s, Skip(s, i)) == Ok(n, name) && Decode(name).value !in keys
    requires NextIs(s, n, COLON) && Overruns(ScanValue(s, Skip(s, n) + 1), s)
    ensures Overruns(ScanField(s, i, keys), s)
  {
  }

  lemma {:induction false} ValueOverruns(s: Text, i: nat, gap: Text, name: Text, beforeColon: Text, keys: set<Text>)
    requires Blank(gap) && At(s, i, gap) && NamedAt(s, i + |gap|, name, beforeColon, keys)
    requires var next := i + |gap| + |Quoted(name)| + |beforeColon| + 1;
             next <= |s| && Overruns(ScanValue(s, next), s)
    ensures i <= |s| && Overruns(ScanFields(s, i, keys), s)
  {
    NameRead(s, i + |gap|, name, beforeColon, keys);
    NamedStart(s, i, gap);
    ValueFails(s, i, name, i + |gap| + |Quoted(name)|, keys);
    FieldFails(s, i, keys);
  }

  lemma {:induction false} RestOverruns(s: Text, i: nat, f: Field, keys: set<Text>)
    requires MemberAt(s, i, f, keys)
    requires PastMember(i, f) <= |s| && Overruns(ScanFields(s, PastMember(i, f), keys + {FieldName(f)}), s)
    ensures i <= |s| && Overruns(ScanFields(s, i, keys), s)
  {
    FieldRead(s, i, f, keys);
    var read := f.(after := []);
    assert FieldName(read) == FieldName(f);
    RestFails(s, i, read, i + |FieldText(f)|, keys);
  }

  // ------------------------------------------------ an overrun comes from a cut

  lemma {:induction false} OverrunIsCut(s: Text, i: nat) returns (p: Prefix)
    requires i <= |s| && Overruns(ScanValue(s, i), s)
    ensures CutAfter(s, i, p)
    decreases |s| - i, 2
  {
    var j := Skip(s, i);
    var space := s[i..j];
    SkipIsBlank(s, i);
    ValueCases(s, i);
    if s[j] == LBRACE {
      var members := FieldsOverrun(s, j + 1, {});
      p := InObject(space, members);
    } else if s[j] == LBRACKET {
      var items := ItemsOverrun(s, j + 1);
      p := InArray(space, items);
    } else {
      p := InString(space);
    }
  }

  lemma {:induction false} ItemsOverrun(s: Text, i: nat) returns (c: Items)
    requires i <= |s| && Overruns(ScanItems(s, i), s)
    ensures ItemsCutAfter(s, i, c)
    decreases |s| - i, 3
  {
    var v := ScanValue(s, i);
    ItemsPass(s, i);
    if v.Ok? {
      ValueSound(s, i);
      var item := Item(v.value, s[v.next..Skip(s, v.next)]);
      SkipIsBlank(s, v.next);
      assert ItemAt(s, i, item);
      var rest := ItemsOverrun(s, Skip(s, v.next) + 1);
      c := Past(item, rest);
    } else {
      var value := OverrunIsCut(s, i);
      c := Inside(value);
    }
  }

  lemma {:induction false} FieldsOverrun(s: Text, i: nat, keys: set<Text>) returns (c: Members)
    requires i <= |s| && Overruns(ScanFields(s, i, keys), s)
    ensures MembersCutAfter(s, i, c, keys)
    decreases |s| - i, 4
  {
    var r := ScanField(s, i, keys);
    FieldsPass(s, i, keys);
    if r.Ok? {
      var f := FieldPlace(s, i, keys);
      var rest := FieldsOverrun(s, Skip(s, r.next) + 1, keys + {FieldName(r.value)});
      c := PastField(f, rest);
    } else {
      c := FieldOverrun(s, i, keys);
    }
  }

  lemma {:induction false} FieldPlace(s: Text, i: nat, keys: set<Text>) returns (f: Field)
    requires i <= |s| && ScanField(s, i, keys).Ok? && NextIs(s, ScanField(s, i, keys).next, COMMA)
    ensures var r := ScanField(s, i, keys);
            && MemberAt(s, i, f, keys) && FieldName(f) == FieldName(r.value)
            && PastMember(i, f) == Skip(s, r.next) + 1
  {
    var r := ScanField(s, i, keys);
    FieldSound(s, i, keys);
    SkipIsBlank(s, r.next);
    f := r.value.(after := s[r.next..Skip(s, r.next)]);
    assert FieldText(f) == FieldText(r.value);
  }

  lemma {:induction false} FieldOverrun(s: Text, i: nat, keys: set<Text>) returns (c: Members)
    requires i <= |s| && Overruns(ScanField(s, i, keys), s)
    ensures MembersCutAfter(s, i, c, keys)
    decreases |s| - i, 3
  {
    var j := Skip(s, i);
    SkipIsBlank(s, i);
    FieldPasses(s, i, keys);
    var name := ScanString(s, j);
    if name.Ok? {
      var beforeColon := NamePlace(s, j, keys);
      var value := OverrunIsCut(s, Skip(s, name.next) + 1);
      c := InValue(s[i..j], name.value, beforeColon, value);
    } else {
      c := InName(s[i..j]);
    }
  }

  lemma {:induction false} NamePlace(s: Text, j: nat, keys: set<Text>) returns (beforeColon: Text)
    requires j <= |s| && ScanString(s, j).Ok? && NextIs(s, ScanString(s, j).next, COLON)
    requires Decode(ScanString(s, j).value).value !in keys
    ensures var r := ScanString(s, j);
            NamedAt(s, j, r.value, beforeColon, keys)
            && j + |Quoted(r.value)| + |beforeColon| == Skip(s, r.next)
  {
    var r := ScanString(s, j);
    StringSound(s, j);
    SkipIsBlank(s, r.next);
    beforeColon := s[r.next..Skip(s, r.next)];
  }

  lemma {:induction false} TextPasses(s: Text)
    ensures Overruns(ScanText(s), s) <==> Overruns(ScanValue(s, 0), s)
  {
  }

  /**
   * The text is a well-formed prefix of open containers, none of which repeats a name, followed by a string that the
   * text cuts inside a unicode escape.
   */
  ghost predicate CutInEscape(s: Text, p: Prefix) {
    PrefixFormed(p) && At(s, 0, PrefixText(p)) && CutString(s, |PrefixText(p)|)
  }

  /** The index ends past the text exactly when the text is cut so. */
  lemma {:induction false} OverrunsExactly(s: Text)
    ensures Overruns(ScanText(s), s) <==> exists p :: CutInEscape(s, p)
  {
    TextPasses(s);
    if Overruns(ScanText(s), s) {
      var p := OverrunIsCut(s, 0);
      PrefixMeaning(s, 0, p);
      assert CutInEscape(s, p);
    }
    if p :| CutInEscape(s, p) {
      PrefixMeaning(s, 0, p);
      CutOverruns(s, 0, p);
    }
  }
}
