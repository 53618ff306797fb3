/** assertNoDuplicateJsonKeys: a recursive-descent scan with one shared index (eval/trust-spine-release-gate-cli.ts). */
module JsonScanner {
  import opened Seqs
  import opened Json

  // -------------------------------------------------------- concrete syntax

  /** A JSON text as written: every white space and every raw token. */
  datatype Layout =
    | StringToken(space: Text, body: Text)
    | Literal(space: Text, word: Text)
    | Numeral(space: Text, token: Text)
    | Array(space: Text, gap: Text, items: seq<Item>)
    | Object(space: Text, gap: Text, fields: seq<Field>)

  datatype Item = Item(value: Layout, after: Text)

  datatype Field = Field(space: Text, name: Text, beforeColon: Text, value: Layout, after: Text)

  predicate White(u: Unit) { u == 0x20 || u == 0x09 || u == 0x0d || u == 0x0a }

  predicate Blank(t: Text) { forall i :: 0 <= i < |t| ==> White(t[i]) }

  function LayoutText(c: Layout): Text
    decreases c, 1
  {
    c.space + Core(c)
  }

  /** The part of a layout's text that follows its leading space. */
  function Core(c: Layout): Text
    decreases c, 0
  {
    match c
    case StringToken(_, body) => Quoted(body)
    case Literal(_, word) => word
    case Numeral(_, token) => token
    case Array(_, gap, items) => [LBRACKET] + if items == [] then gap + [RBRACKET] else ItemsText(items)
    case Object(_, gap, fields) => [LBRACE] + if fields == [] then gap + [RBRACE] else FieldsText(fields)
  }

  function Quoted(body: Text): Text { [QUOTE] + (body + [QUOTE]) }

  function ItemsText(items: seq<Item>): Text
    requires items != []
    decreases items
  {
    LayoutText(items[0].value)
    + (items[0].after + if |items| == 1 then [RBRACKET] else [COMMA] + ItemsText(items[1..]))
  }

  function FieldText(f: Field): Text
    decreases f
  {
    f.space + (Quoted(f.name) + (f.beforeColon + ([COLON] + LayoutText(f.value))))
  }

  function FieldsText(fields: seq<Field>): Text
    requires fields != []
    decreases fields
  {
    FieldText(fields[0])
    + (fields[0].after + if |fields| == 1 then [RBRACE] else [COMMA] + FieldsText(fields[1..]))
  }

  /** A layout of the scanner's grammar: strings decode, numbers are runs of number units. */
  predicate Formed(c: Layout)
    decreases c
  {
    && Blank(c.space)
    && match c
       case StringToken(_, body) => Decode(body).Some?
       case Literal(_, word) => word == TRUE || word == FALSE || word == NULL
       case Numeral(_, token) => NumberToken(token)
       case Array(_, gap, items) => Blank(gap) && (items != [] ==> gap == []) && ItemsFormed(items)
       case Object(_, gap, fields) => Blank(gap) && (fields != [] ==> gap == []) && FieldsFormed(fields)
  }

  predicate ItemsFormed(items: seq<Item>)
    decreases items
  {
    items != [] ==> Formed(items[0].value) && Blank(items[0].after) && ItemsFormed(items[1..])
  }

  predicate FieldFormed(f: Field)
    decreases f
  {
    Blank(f.space) && Decode(f.name).Some? && Blank(f.beforeColon) && Formed(f.value)
  }

  predicate FieldsFormed(fields: seq<Field>)
    decreases fields
  {
    fields != [] ==> FieldFormed(fields[0]) && Blank(fields[0].after) && FieldsFormed(fields[1..])
  }

  function FieldName(f: Field): Text {
    if Decode(f.name).Some? then Decode(f.name).value else []
  }

  /** No object at any depth repeats a decoded member name. */
  predicate Unique(c: Layout)
    decreases c
  {
    match c
    case Array(_, _, items) => ItemsUnique(items)
    case Object(_, _, fields) => FieldsUnique(fields, {})
    case _ => true
  }

  predicate ItemsUnique(items: seq<Item>)
    decreases items
  {
    items != [] ==> Unique(items[0].value) && ItemsUnique(items[1..])
  }

  predicate FieldUnique(f: Field, keys: set<Text>)
    decreases f
  {
    FieldName(f) !in keys && Unique(f.value)
  }

  /** Names that differ from `keys` and from each other, and unique values. */
  predicate FieldsUnique(fields: seq<Field>, keys: set<Text>)
    decreases fields
  {
    fields != [] ==> FieldUnique(fields[0], keys) && FieldsUnique(fields[1..], keys + {FieldName(fields[0])})
  }

  // ---------------------------------------------------------- the scan itself

  /** Where a scan stops, with what it read; or where it fails; or the name it found repeated. */
  datatype Scan<+T> = Ok(next: nat, value: T) | Bad(at: nat) | Duplicate(name: Text, at: nat) {
    predicate IsFailure() { !Ok? }

    function PropagateFailure<U>(): Scan<U>
      requires !Ok?
    {
      match this
      case Bad(at) => Bad(at)
      case Duplicate(name, at) => Duplicate(name, at)
    }

    function Extract(): (r: Scan<T>)
      requires Ok?
      ensures r == this
    {
      this
    }
  }

  function Skip(s: Text, i: nat): (r: nat)
    requires i <= |s|
    ensures i <= r <= |s|
    decreases |s| - i
  {
    if i < |s| && White(s[i]) then Skip(s, i + 1) else i
  }

  /** The loop over the digits of a unicode escape; it moves past a unit before looking at it. */
  function HexEnd(s: Text, i: nat, n: nat): (r: Scan<()>)
    requires i <= |s|
    ensures r.Ok? ==> i <= r.next <= |s|
    decreases n
  {
    if n == 0 then Ok(i, ())
    else if i < |s| && IsHex(s[i]) then HexEnd(s, i + 1, n - 1)
    else Bad(i + 1)
  }

  /** From inside a string to just past its closing quote. */
  function StringEnd(s: Text, i: nat): (r: Scan<()>)
    requires i <= |s|
    ensures r.Ok? ==> i < r.next <= |s|
    decreases |s| - i
  {
    if i == |s| then Bad(i)
    else if s[i] == QUOTE then Ok(i + 1, ())
    else if s[i] == BACKSLASH then
      if i + 1 == |s| then Bad(i + 1)
      else if s[i + 1] == LOWER_U then
        var h :- HexEnd(s, i + 2, 4);
        StringEnd(s, h.next)
      else StringEnd(s, i + 2)
    else if s[i] < 0x20 then Bad(i + 1)
    else StringEnd(s, i + 1)
  }

  function ScanString(s: Text, i: nat): (r: Scan<Text>)
    requires i <= |s|
    ensures r.Ok? ==> i < r.next <= |s| && Decode(r.value).Some?
  {
    if i == |s| || s[i] != QUOTE then Bad(i)
    else
      var end :- StringEnd(s, i + 1);
      var body := s[i + 1..end.next - 1];
      if Decode(body).None? then Bad(end.next) else Ok(end.next, body)
  }

  /** The text `t` stands at position `i`. */
  predicate At(s: Text, i: nat, t: Text)
    decreases t
  {
    if t == [] then i <= |s| else i < |s| && s[i] == t[0] && At(s, i + 1, t[1..])
  }

  function ScanLiteral(s: Text, i: nat, space: Text, word: Text): (r: Scan<Layout>)
    requires i <= |s|
    ensures r.Ok? ==> r.next == i + |word| <= |s|
  {
    AtFits(s, i, word);
    if At(s, i, word) then Ok(i + |word|, Literal(space, word)) else Bad(i)
  }

  lemma {:induction false} AtFits(s: Text, i: nat, t: Text)
    ensures At(s, i, t) ==> i + |t| <= |s| && s[i..i + |t|] == t
    decreases t
  {
    if t != [] && At(s, i, t) {
      AtFits(s, i + 1, t[1..]);
      assert t == [t[0]] + t[1..];
      assert s[i..i + |t|] == [s[i]] + s[i + 1..i + |t|];
    }
  }

  function NumberEnd(s: Text, i: nat): (r: nat)
    requires i <= |s|
    ensures i <= r <= |s|
    decreases |s| - i
  {
    if i < |s| && NumberUnit(s[i]) then NumberEnd(s, i + 1) else i
  }

  function ScanValue(s: Text, i: nat): (r: Scan<Layout>)
    requires i <= |s|
    ensures r.Ok? ==> i < r.next <= |s|
    decreases |s| - i, 2
  {
    var j := Skip(s, i);
    if j == |s| then Bad(j) else ScanCore(s, j, s[i..j])
  }

  /** A value whose first unit stands at `i`, after `space`. */
  function ScanCore(s: Text, i: nat, space: Text): (r: Scan<Layout>)
    requires i < |s|
    ensures r.Ok? ==> i < r.next <= |s|
    decreases |s| - i, 1
  {
    if s[i] == LBRACE then ScanObject(s, i + 1, space)
    else if s[i] == LBRACKET then ScanArray(s, i + 1, space)
    else if s[i] == QUOTE then
      var body :- ScanString(s, i);
      Ok(body.next, StringToken(space, body.value))
    else if s[i] == TRUE[0] then ScanLiteral(s, i, space, TRUE)
    else if s[i] == FALSE[0] then ScanLiteral(s, i, space, FALSE)
    else if s[i] == NULL[0] then ScanLiteral(s, i, space, NULL)
    else
      var k := NumberEnd(s, i);
      if k == i then Bad(i) else Ok(k, Numeral(space, s[i..k]))
  }

  function ScanArray(s: Text, i: nat, space: Text): (r: Scan<Layout>)
    requires i <= |s|
    ensures r.Ok? ==> i < r.next <= |s|
    decreases |s| - i, 5
  {
    var k := Skip(s, i);
    if k < |s| && s[k] == RBRACKET then Ok(k + 1, Array(space, s[i..k], []))
    else
      var items :- ScanItems(s, i);
      Ok(items.next, Array(space, [], items.value))
  }

  function ScanObject(s: Text, i: nat, space: Text): (r: Scan<Layout>)
    requires i <= |s|
    ensures r.Ok? ==> i < r.next <= |s|
    decreases |s| - i, 5
  {
    var k := Skip(s, i);
    if k < |s| && s[k] == RBRACE then Ok(k + 1, Object(space, s[i..k], []))
    else
      var fields :- ScanFields(s, i, {});
      Ok(fields.next, Object(space, [], fields.value))
  }

  function ScanItems(s: Text, i: nat): (r: Scan<seq<Item>>)
    requires i <= |s|
    ensures r.Ok? ==> i < r.next <= |s|
    decreases |s| - i, 3
  {
    var v :- ScanValue(s, i);
    ScanNext(s, v.value, v.next)
  }

  /** What follows an item that ends at `i`: the closing bracket, or a comma and more items. */
  function ScanNext(s: Text, v: Layout, i: nat): (r: Scan<seq<Item>>)
    requires i <= |s|
    ensures r.Ok? ==> i < r.next <= |s|
    decreases |s| - i, 4
  {
    var k := Skip(s, i);
    var item := Item(v, s[i..k]);
    if k < |s| && s[k] == RBRACKET then Ok(k + 1, [item])
    else if k == |s| || s[k] != COMMA then Bad(k)
    else
      var rest :- ScanItems(s, k + 1);
      Ok(rest.next, [item] + rest.value)
  }

  function ScanFields(s: Text, i: nat, keys: set<Text>): (r: Scan<seq<Field>>)
    requires i <= |s|
    ensures r.Ok? ==> i < r.next <= |s|
    decreases |s| - i, 4
  {
    var f :- ScanField(s, i, keys);
    ScanAfter(s, f.value, f.next, keys + {FieldName(f.value)})
  }

  /** What follows a member that ends at `i`: the closing brace, or a comma and more members. */
  function ScanAfter(s: Text, f: Field, i: nat, keys: set<Text>): (r: Scan<seq<Field>>)
    requires i <= |s|
    ensures r.Ok? ==> i < r.next <= |s|
    decreases |s| - i, 5
  {
    var k := Skip(s, i);
    var field := f.(after := s[i..k]);
    if k < |s| && s[k] == RBRACE then Ok(k + 1, [field])
    else if k == |s| || s[k] != COMMA then Bad(k)
    else
      var rest :- ScanFields(s, k + 1, keys);
      Ok(rest.next, [field] + rest.value)
  }

  /** A name not seen before, a colon and a value. */
  function ScanField(s: Text, i: nat, keys: set<Text>): (r: Scan<Field>)
    requires i <= |s|
    ensures r.Ok? ==> i < r.next <= |s|
    decreases |s| - i, 3
  {
    var j := Skip(s, i);
    var name :- ScanString(s, j);
    var key := Decode(name.value).value;
    if key in keys then Duplicate(key, name.next)
    else
      var k := Skip(s, name.next);
      if k == |s| || s[k] != COLON then Bad(k)
      else
        var v :- ScanValue(s, k + 1);
        Ok(v.next, Field(s[i..j], name.value, s[name.next..k], v.value, []))
  }

  function ScanText(s: Text): Scan<Layout> {
    var v :- ScanValue(s, 0);
    var k := Skip(s, v.next);
    if k == |s| then Ok(k, v.value) else Bad(k)
  }

  // --------------------------------------------------------- the source's form

  datatype Outcome = Accepted | Rejected | Repeats(name: Text)

  /** The outcome and final index that a scan of the same text calls for. */
  ghost predicate Agrees<T>(scan: Scan<T>, r: Outcome, index: nat) {
    match scan
    case Ok(next, _) => r == Accepted && index == next
    case Bad(at) => r == Rejected && index == at
    case Duplicate(name, at) => r == Repeats(name) && index == at
  }

  /** Two scans that end the same way, whatever they have collected. */
  ghost predicate EndsLike<T>(a: Scan<T>, b: Scan<T>) {
    match a
    case Ok(next, _) => b.Ok? && b.next == next
    case Bad(at) => b == Bad(at)
    case Duplicate(name, at) => b == Duplicate(name, at)
  }

  class Scanner {
    const source: Text
    var index: nat

    constructor (text: Text)
      ensures source == text && index == 0
    {
      source, index := text, 0;
    }

    method SkipWhitespace()
      requires index <= |source|
      modifies this
      ensures index == Skip(source, old(index))
    {
      while index < |source| && White(source[index])
        invariant index <= |source| && Skip(source, index) == Skip(source, old(index))
      {
        index := index + 1;
      }
    }

    method SkipUnicodeEscape() returns (ok: bool)
      requires index <= |source|
      modifies this
      ensures Agrees(HexEnd(source, old(index), 4), if ok then Accepted else Rejected, index)
    {
      var offset := 0;
      while offset < 4
        invariant 0 <= offset <= 4 && index <= |source|
        invariant HexEnd(source, index, 4 - offset) == HexEnd(source, old(index), 4)
      {
        var hex := index;
        index := index + 1;
        if hex == |source| || !IsHex(source[hex]) {
          return false;
        }
        offset := offset + 1;
      }
      return true;
    }

    /** One unit or escape of a string body; `closed` when it was the closing quote. */
    method SkipUnit() returns (ok: bool, closed: bool)
      requires index < |source|
      modifies this
      ensures ok && closed ==> StringEnd(source, old(index)) == Ok(index, ())
      ensures ok && !closed ==>
                old(index) < index <= |source| && StringEnd(source, index) == StringEnd(source, old(index))
      ensures !ok ==> StringEnd(source, old(index)) == Bad(index)
    {
      var character := source[index];
      index := index + 1;
      if character == QUOTE {
        return true, true;
      }
      if character == BACKSLASH {
        if index == |source| {
          return false, false;
        }
        var escaped := source[index];
        index := index + 1;
        if escaped == LOWER_U {
          ok := SkipUnicodeEscape();
          return ok, false;
        }
      } else if character < 0x20 {
        return false, false;
      }
      return true, false;
    }

    /** From inside a string to just past its closing quote. */
    method SkipBody() returns (ok: bool)
      requires index <= |source|
      modifies this
      ensures Agrees(StringEnd(source, old(index)), if ok then Accepted else Rejected, index)
    {
      while index < |source|
        invariant index <= |source| && StringEnd(source, index) == StringEnd(source, old(index))
        decreases |source| - index
      {
        var closed;
        ok, closed := SkipUnit();
        if !ok || closed {
          return ok;
        }
      }
      return false;
    }

    method ParseString() returns (r: Outcome, parsed: Text)
      requires index <= |source|
      modifies this
      ensures Agrees(ScanString(source, old(index)), r, index)
      ensures r == Accepted ==> Some(parsed) == Decode(ScanString(source, old(index)).value)
    {
      var start := index;
      if index == |source| || source[index] != QUOTE {
        return Rejected, [];
      }
      index := index + 1;
      var ok := SkipBody();
      if !ok {
        return Rejected, [];
      }
      var decoded := Decode(source[start + 1..index - 1]);
      return if decoded.Some? then Accepted else Rejected, if decoded.Some? then decoded.value else [];
    }

    method ParseLiteral(literal: Text) returns (r: Outcome)
      modifies this
      ensures r == if At(source, old(index), literal) then Accepted else Rejected
      ensures index == if r == Accepted then old(index) + |literal| else old(index)
    {
      if !At(source, index, literal) {
        return Rejected;
      }
      index := index + |literal|;
      return Accepted;
    }

    method ParseNumber() returns (r: Outcome)
      requires index <= |source|
      modifies this
      ensures index == NumberEnd(source, old(index))
      ensures r == if index == old(index) then Rejected else Accepted
    {
      var start := index;
      while index < |source| && NumberUnit(source[index])
        invariant start <= index <= |source| && NumberEnd(source, index) == NumberEnd(source, start)
      {
        index := index + 1;
      }
      return if start == index then Rejected else Accepted;
    }

    method ParseValue() returns (r: Outcome)
      requires index <= |source|
      modifies this
      ensures Agrees(ScanValue(source, old(index)), r, index)
      decreases |source| - index, 2
    {
      ghost var start := index;
      SkipWhitespace();
      if index == |source| {
        r := ParseNumber();
      } else {
        r := ParseCore(source[start..index]);
      }
    }

    /** The branches of a value, chosen by its first unit. */
    method ParseCore(ghost space: Text) returns (r: Outcome)
      requires index < |source|
      modifies this
      ensures Agrees(ScanCore(source, old(index), space), r, index)
      decreases |source| - index, 1
    {
      var character := source[index];
      if character == LBRACE {
        index := index + 1;
        r := ParseMembers(space);
      } else if character == LBRACKET {
        index := index + 1;
        r := ParseItems(space);
      } else if character == QUOTE {
        var parsed;
        r, parsed := ParseString();
      } else if character == TRUE[0] {
        r := ParseLiteral(TRUE);
      } else if character == FALSE[0] {
        r := ParseLiteral(FALSE);
      } else if character == NULL[0] {
        r := ParseLiteral(NULL);
      } else {
        r := ParseNumber();
      }
    }

    /** The members of an object whose opening brace has been passed. */
    method ParseMembers(ghost space: Text) returns (r: Outcome)
      requires index <= |source|
      modifies this
      ensures Agrees(ScanObject(source, old(index), space), r, index)
      decreases |source| - index, 6
    {
      ghost var start := index;
      SkipWhitespace();
      if index < |source| && source[index] == RBRACE {
        index := index + 1;
        return Accepted;
      }
      FieldsSkip(source, start, {});
      r := ParseMemberList();
    }

    method ParseMemberList() returns (r: Outcome)
      requires index <= |source|
      modifies this
      ensures Agrees(ScanFields(source, old(index), {}), r, index)
      decreases |source| - index, 5
    {
      var keys: set<Text> := {};
      var more := true;
      r := Accepted;
      while more
        invariant more ==> old(index) <= index <= |source|
        invariant more ==> EndsLike(ScanFields(source, index, keys), ScanFields(source, old(index), {}))
        invariant !more ==> Agrees(ScanFields(source, old(index), {}), r, index)
        decreases more, |source| - index
      {
        ghost var before, known := index, keys;
        var key;
        r, key, more := ParseMember(keys);
        if more { FieldsStep(source, before, known, key, index); }
        keys := keys + {key};
      }
    }

    /** One member and what follows it; `more` when that is a comma. */
    method ParseMember(keys: set<Text>) returns (r: Outcome, key: Text, more: bool)
      requires index <= |source|
      modifies this
      ensures more ==> Continues(source, old(index), keys, key, index)
      ensures !more ==> Agrees(ScanFields(source, old(index), keys), r, index)
      decreases |source| - index, 4
    {
      r, key := ParseField(keys);
      if r != Accepted {
        return r, key, false;
      }
      SkipWhitespace();
      if index < |source| && source[index] == RBRACE {
        index := index + 1;
        return Accepted, key, false;
      }
      if index == |source| || source[index] != COMMA {
        return Rejected, key, false;
      }
      index := index + 1;
      return Accepted, key, true;
    }

    method ParseField(keys: set<Text>) returns (r: Outcome, key: Text)
      requires index <= |source|
      modifies this
      ensures Agrees(ScanField(source, old(index), keys), r, index)
      ensures r == Accepted ==> key == FieldName(ScanField(source, old(index), keys).value)
      decreases |source| - index, 3
    {
      SkipWhitespace();
      r, key := ParseString();
      if r != Accepted {
        return;
      }
      if key in keys {
        return Repeats(key), key;
      }
      SkipWhitespace();
      if index == |source| || source[index] != COLON {
        return Rejected, key;
      }
      index := index + 1;
      r := ParseValue();
    }

    /** The items of an array whose opening bracket has been passed. */
    method ParseItems(ghost space: Text) returns (r: Outcome)
      requires index <= |source|
      modifies this
      ensures Agrees(ScanArray(source, old(index), space), r, index)
      decreases |source| - index, 6
    {
      ghost var start := index;
      SkipWhitespace();
      if index < |source| && source[index] == RBRACKET {
        index := index + 1;
        return Accepted;
      }
      ItemsSkip(source, start);
      r := ParseItemList();
    }

    method ParseItemList() returns (r: Outcome)
      requires index <= |source|
      modifies this
      ensures Agrees(ScanItems(source, old(index)), r, index)
      decreases |source| - index, 5
    {
      var more := true;
      r := Accepted;
      while more
        invariant more ==> old(index) <= index <= |source|
        invariant more ==> EndsLike(ScanItems(source, index), ScanItems(source, old(index)))
        invariant !more ==> Agrees(ScanItems(source, old(index)), r, index)
        decreases more, |source| - index
      {
        ghost var before := index;
        r, more := ParseItem();
        if more { ItemsStep(source, before, index); }
      }
    }

    /** One item and what follows it; `more` when that is a comma. */
    method ParseItem() returns (r: Outcome, more: bool)
      requires index <= |source|
      modifies this
      ensures more ==> ContinuesItem(source, old(index), index)
      ensures !more ==> Agrees(ScanItems(source, old(index)), r, index)
      decreases |source| - index, 4
    {
      r := ParseValue();
      if r != Accepted {
        return r, false;
      }
      SkipWhitespace();
      if index < |source| && source[index] == RBRACKET {
        index := index + 1;
        return Accepted, false;
      }
      if index == |source| || source[index] != COMMA {
        return Rejected, false;
      }
      index := index + 1;
      return Accepted, true;
    }

    /** assertNoDuplicateJsonKeys. */
    method AssertNoDuplicateJsonKeys() returns (r: Outcome)
      requires index == 0
      modifies this
      ensures Agrees(ScanText(source), r, index)
    {
      r := ParseValue();
      if r != Accepted {
        return;
      }
      SkipWhitespace();
      return if index == |source| then Accepted else Rejected;
    }
  }

  lemma {:induction false} SkipTwice(s: Text, i: nat)
    requires i <= |s|
    ensures Skip(s, Skip(s, i)) == Skip(s, i)
    decreases |s| - i
  {
    if i < |s| && White(s[i]) { SkipTwice(s, i + 1); }
  }

  lemma {:induction false} ValueSkip(s: Text, i: nat)
    requires i <= |s|
    ensures EndsLike(ScanValue(s, Skip(s, i)), ScanValue(s, i))
  {
    SkipTwice(s, i);
    var j := Skip(s, i);
    if j < |s| { CoreAlike(s, j, s[i..j], s[j..j]); }
  }

  lemma {:induction false} CoreAlike(s: Text, i: nat, a: Text, b: Text)
    requires i < |s|
    ensures EndsLike(ScanCore(s, i, b), ScanCore(s, i, a))
  {
  }

  lemma {:induction false} ItemsSkip(s: Text, i: nat)
    requires i <= |s|
    ensures EndsLike(ScanItems(s, Skip(s, i)), ScanItems(s, i))
  {
    ValueSkip(s, i);
    var v, u := ScanValue(s, Skip(s, i)), ScanValue(s, i);
    if v.Ok? { NextAlike(s, v.value, u.value, v.next); }
  }

  lemma {:induction false} NextAlike(s: Text, v: Layout, u: Layout, i: nat)
    requires i <= |s|
    ensures EndsLike(ScanNext(s, v, i), ScanNext(s, u, i))
  {
  }

  lemma {:induction false} FieldSkip(s: Text, i: nat, keys: set<Text>)
    requires i <= |s|
    ensures EndsLike(ScanField(s, Skip(s, i), keys), ScanField(s, i, keys))
    ensures ScanField(s, i, keys).Ok? ==>
              FieldName(ScanField(s, Skip(s, i), keys).value) == FieldName(ScanField(s, i, keys).value)
  {
    SkipTwice(s, i);
  }

  /** One member of that name, then a comma just before `j`. */
  ghost predicate Continues(s: Text, i: nat, keys: set<Text>, key: Text, j: nat) {
    && i < j <= |s| && ScanField(s, i, keys).Ok? && FieldName(ScanField(s, i, keys).value) == key
    && j == Skip(s, ScanField(s, i, keys).next) + 1 && s[j - 1] == COMMA
  }

  /** After a member and a comma, the scan ends as the scan of the members that follow. */
  lemma {:induction false} FieldsStep(s: Text, i: nat, keys: set<Text>, key: Text, j: nat)
    requires Continues(s, i, keys, key, j)
    ensures EndsLike(ScanFields(s, j, keys + {key}), ScanFields(s, i, keys))
  {
  }

  ghost predicate ContinuesItem(s: Text, i: nat, j: nat) {
    && i < j <= |s| && ScanValue(s, i).Ok? && j == Skip(s, ScanValue(s, i).next) + 1 && s[j - 1] == COMMA
  }

  lemma {:induction false} ItemsStep(s: Text, i: nat, j: nat)
    requires ContinuesItem(s, i, j)
    ensures EndsLike(ScanItems(s, j), ScanItems(s, i))
  {
  }

  lemma {:induction false} AfterAlike(s: Text, f: Field, g: Field, i: nat, keys: set<Text>)
    requires i <= |s|
    ensures EndsLike(ScanAfter(s, f, i, keys), ScanAfter(s, g, i, keys))
  {
  }

  lemma {:induction false} FieldsSkip(s: Text, i: nat, keys: set<Text>)
    requires i <= |s|
    ensures EndsLike(ScanFields(s, Skip(s, i), keys), ScanFields(s, i, keys))
  {
    FieldSkip(s, i, keys);
    var f, g := ScanField(s, Skip(s, i), keys), ScanField(s, i, keys);
    if f.Ok? { AfterAlike(s, f.value, g.value, f.next, keys + {FieldName(f.value)}); }
  }
}
