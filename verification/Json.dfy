/** JSON values, their string tokens and the two canonical printers. */
module Json {
  import opened Seqs

  // A JavaScript string is a sequence of UTF-16 code units, lone surrogates included.
  type Unit = u: int | 0 <= u < 0x10000
  type Text = seq<Unit>

  const QUOTE: Unit := 0x22
  const COMMA: Unit := 0x2c
  const COLON: Unit := 0x3a
  const LBRACKET: Unit := 0x5b
  const BACKSLASH: Unit := 0x5c
  const RBRACKET: Unit := 0x5d
  const LOWER_U: Unit := 0x75
  const LBRACE: Unit := 0x7b
  const RBRACE: Unit := 0x7d

  const TRUE: Text := [0x74, 0x72, 0x75, 0x65]
  const FALSE: Text := [0x66, 0x61, 0x6c, 0x73, 0x65]
  const NULL: Text := [0x6e, 0x75, 0x6c, 0x6c]

  function UnitRank(u: Unit): int { u }

  /** The order of `Array.prototype.sort` on strings. */
  predicate TextLe(a: Text, b: Text) { LexLe(UnitRank, a, b) }

  lemma {:induction false} TextTotalOrder()
    ensures TotalOrder(TextLe)
  {
    forall a: Text, b: Text ensures TextLe(a, b) || TextLe(b, a) { LexTotal(UnitRank, a, b); }
    forall a: Text, b: Text | TextLe(a, b) && TextLe(b, a) ensures a == b { LexAntisymmetric(UnitRank, a, b); }
    forall a: Text, b: Text, c: Text | TextLe(a, b) && TextLe(b, c) ensures TextLe(a, c) {
      LexTransitive(UnitRank, a, b, c);
    }
  }

  predicate NumberUnit(u: Unit) {
    0x30 <= u <= 0x39 || u == 0x2b || u == 0x2d || u == 0x2e || u == 0x65 || u == 0x45
  }

  predicate NumberToken(t: Text) { t != [] && forall i :: 0 <= i < |t| ==> NumberUnit(t[i]) }

  // ----------------------------------------------------------- string tokens

  function HexDigit(d: int): Unit
    requires 0 <= d < 16
  {
    if d < 10 then 0x30 + d else 0x61 + d - 10
  }

  function HexValue(u: Unit): (r: Option<int>)
    ensures r.Some? ==> 0 <= r.value < 16
  {
    if 0x30 <= u <= 0x39 then Some(u - 0x30)
    else if 0x61 <= u <= 0x66 then Some(u - 0x61 + 10)
    else if 0x41 <= u <= 0x46 then Some(u - 0x41 + 10)
    else None
  }

  predicate IsHex(u: Unit) { HexValue(u).Some? }

  function HexFour(u: Unit): Text {
    [HexDigit(u / 4096), HexDigit(u / 256 % 16), HexDigit(u / 16 % 16), HexDigit(u % 16)]
  }

  function FourHex(a: Unit, b: Unit, c: Unit, d: Unit): Unit
    requires IsHex(a) && IsHex(b) && IsHex(c) && IsHex(d)
  {
    HexValue(a).value * 4096 + HexValue(b).value * 256 + HexValue(c).value * 16 + HexValue(d).value
  }

  /** The unit a one-letter escape stands for. */
  function ShortEscape(u: Unit): Option<Unit> {
    if u == QUOTE || u == BACKSLASH || u == 0x2f then Some(u)
    else if u == 0x62 then Some(8)
    else if u == 0x66 then Some(12)
    else if u == 0x6e then Some(10)
    else if u == 0x72 then Some(13)
    else if u == 0x74 then Some(9)
    else None
  }

  predicate High(u: Unit) { 0xd800 <= u <= 0xdbff }

  predicate Low(u: Unit) { 0xdc00 <= u <= 0xdfff }

  /** How `JSON.stringify` writes one unit that is not half of a surrogate pair. */
  function QuoteUnit(u: Unit): Text {
    if u == QUOTE || u == BACKSLASH then [BACKSLASH, u]
    else if u == 8 then [BACKSLASH, 0x62]
    else if u == 12 then [BACKSLASH, 0x66]
    else if u == 10 then [BACKSLASH, 0x6e]
    else if u == 13 then [BACKSLASH, 0x72]
    else if u == 9 then [BACKSLASH, 0x74]
    else if u < 0x20 || High(u) || Low(u) then [BACKSLASH, LOWER_U] + HexFour(u)
    else [u]
  }

  /** The units between the quotes of `JSON.stringify(s)`. */
  function QuoteBody(s: Text): Text {
    if s == [] then []
    else if High(s[0]) && |s| > 1 && Low(s[1]) then [s[0], s[1]] + QuoteBody(s[2..])
    else QuoteUnit(s[0]) + QuoteBody(s[1..])
  }

  function Quote(s: Text): Text { [QUOTE] + QuoteBody(s) + [QUOTE] }

  /** `JSON.parse` on the units between two quotes. */
  function Decode(t: Text): Option<Text> {
    if t == [] then Some([])
    else if t[0] == BACKSLASH then
      if |t| < 2 then None
      else if t[1] == LOWER_U then
        if |t| < 6 || !(IsHex(t[2]) && IsHex(t[3]) && IsHex(t[4]) && IsHex(t[5])) then None
        else
          var rest :- Decode(t[6..]);
          Some([FourHex(t[2], t[3], t[4], t[5])] + rest)
      else
        var u :- ShortEscape(t[1]);
        var rest :- Decode(t[2..]);
        Some([u] + rest)
    else if t[0] == QUOTE || t[0] < 0x20 then None
    else
      var rest :- Decode(t[1..]);
      Some([t[0]] + rest)
  }

  lemma {:induction false} HexDigitValue(d: int)
    requires 0 <= d < 16
    ensures HexValue(HexDigit(d)) == Some(d)
  {
  }

  lemma {:induction false} Digits(u: Unit)
    ensures 0 <= u / 4096 < 16
    ensures u == u / 4096 * 4096 + u / 256 % 16 * 256 + u / 16 % 16 * 16 + u % 16
  {
    var a, b := u / 16, u / 256;
    assert u == a * 16 + u % 16;
    assert a / 16 == b && a == b * 16 + a % 16;
    assert b / 16 == u / 4096 && b == u / 4096 * 16 + b % 16;
  }

  lemma {:induction false} HexRoundTrip(u: Unit)
    ensures |HexFour(u)| == 4 && forall i :: 0 <= i < 4 ==> IsHex(HexFour(u)[i])
    ensures FourHex(HexFour(u)[0], HexFour(u)[1], HexFour(u)[2], HexFour(u)[3]) == u
  {
    Digits(u);
    HexDigitValue(u / 4096);
    HexDigitValue(u / 256 % 16);
    HexDigitValue(u / 16 % 16);
    HexDigitValue(u % 16);
  }

  lemma {:induction false} DecodePlain(u: Unit, t: Text)
    requires u != BACKSLASH && u != QUOTE && u >= 0x20
    ensures Decode([u] + t) == if Decode(t).None? then None else Some([u] + Decode(t).value)
  {
    assert ([u] + t)[1..] == t;
  }

  lemma {:induction false} DecodeUnit(u: Unit, t: Text)
    ensures Decode(QuoteUnit(u) + t) == if Decode(t).None? then None else Some([u] + Decode(t).value)
  {
    var q := QuoteUnit(u);
    assert (q + t)[|q|..] == t;
    if |q| == 1 {
      DecodePlain(u, t);
    } else {
      assert (q + t)[0] == q[0] && (q + t)[1] == q[1];
      if |q| == 6 {
        HexRoundTrip(u);
        assert forall i :: 2 <= i < 6 ==> (q + t)[i] == HexFour(u)[i - 2];
      }
    }
  }

  /** Reading a quoted string back gives the string, lone surrogates and control units included. */
  lemma {:induction false} QuoteDecodes(s: Text)
    ensures Decode(QuoteBody(s)) == Some(s)
  {
    if s != [] {
      if High(s[0]) && |s| > 1 && Low(s[1]) {
        QuoteDecodes(s[2..]);
        var rest := QuoteBody(s[2..]);
        DecodePlain(s[1], rest);
        DecodePlain(s[0], [s[1]] + rest);
        assert [s[0], s[1]] + rest == [s[0]] + ([s[1]] + rest);
        assert s == [s[0]] + ([s[1]] + s[2..]);
      } else {
        QuoteDecodes(s[1..]);
        DecodeUnit(s[0], QuoteBody(s[1..]));
        assert s == [s[0]] + s[1..];
      }
    }
  }

  // ------------------------------------------------------------------ values

  /** What a JavaScript variable may hold; a finite number is known by the token it prints as. */
  datatype Value =
    | Null
    | Bool(b: bool)
    | Number(token: Text)
    | NonFinite
    | Str(s: Text)
    | Arr(items: seq<Value>)
    | Obj(members: seq<Member>)
    | Other

  datatype Member = Member(name: Text, value: Value)

  function NameOf(m: Member): Text { m.name }

  /** Objects never hold a name twice, and numbers print as number tokens. */
  predicate Proper(v: Value)
    decreases v
  {
    match v
    case Number(token) => NumberToken(token)
    case Arr(items) => forall x :: x in items ==> Proper(x)
    case Obj(members) =>
      && (forall i, j :: 0 <= i < j < |members| ==> members[i].name != members[j].name)
      && (forall m :: m in members ==> Proper(m.value))
    case _ => true
  }

  function Size(v: Value): nat
    decreases v
  {
    match v
    case Arr(items) => 1 + ItemsSize(items)
    case Obj(members) => 1 + MembersSize(members)
    case _ => 1
  }

  function ItemsSize(items: seq<Value>): nat
    decreases items
  {
    if items == [] then 0 else Size(items[0]) + ItemsSize(items[1..])
  }

  function MembersSize(members: seq<Member>): nat
    decreases members
  {
    if members == [] then 0 else Size(members[0].value) + MembersSize(members[1..])
  }

  lemma {:induction false} InsertSize(m: Member, members: seq<Member>)
    ensures MembersSize(Insert(NameOf, TextLe, m, members)) == Size(m.value) + MembersSize(members)
  {
    if members != [] && !TextLe(m.name, members[0].name) { InsertSize(m, members[1..]); }
  }

  lemma {:induction false} SortSize(members: seq<Member>)
    ensures MembersSize(Sort(NameOf, TextLe, members)) == MembersSize(members)
  {
    if members != [] {
      SortSize(members[1..]);
      InsertSize(members[0], Sort(NameOf, TextLe, members[1..]));
    }
  }

  function SortedMembers(members: seq<Member>): (r: seq<Member>)
    ensures MembersSize(r) == MembersSize(members)
  {
    SortSize(members);
    Sort(NameOf, TextLe, members)
  }

  function JoinText(parts: seq<Text>): Text {
    if parts == [] then []
    else if |parts| == 1 then parts[0]
    else parts[0] + [COMMA] + JoinText(parts[1..])
  }

  // --------------------------------------------------- the gate's canonicalJson

  /** `JSON.stringify` of null, a boolean, a finite number or a string. */
  function Stringify(v: Value): Text
    requires v.Null? || v.Bool? || v.Number? || v.Str?
  {
    match v
    case Null => NULL
    case Bool(b) => if b then TRUE else FALSE
    case Number(token) => token
    case Str(s) => Quote(s)
  }

  function GateJson(v: Value): Option<Text>
    decreases Size(v), 0
  {
    if v.Null? || v.Bool? then Some(Stringify(v))
    else if v.Number? then Some(Stringify(v))
    else if v.NonFinite? then None
    else if v.Str? then Some(Stringify(v))
    else if v.Arr? then
      var parts :- GateItems(v.items);
      Some([LBRACKET] + JoinText(parts) + [RBRACKET])
    else if v.Obj? then
      var parts :- GateMembers(SortedMembers(v.members));
      Some([LBRACE] + JoinText(parts) + [RBRACE])
    else None
  }

  function GateItems(items: seq<Value>): (r: Option<seq<Text>>)
    ensures r.Some? ==> |r.value| == |items|
    decreases ItemsSize(items), 1 + |items|
  {
    if items == [] then Some([])
    else
      var first :- GateJson(items[0]);
      var rest :- GateItems(items[1..]);
      Some([first] + rest)
  }

  function GateMembers(members: seq<Member>): (r: Option<seq<Text>>)
    ensures r.Some? ==> |r.value| == |members|
    decreases MembersSize(members), 1 + |members|
  {
    if members == [] then Some([])
    else
      var first :- GateJson(members[0].value);
      var rest :- GateMembers(members[1..]);
      Some([Stringify(Str(members[0].name)) + [COLON] + first] + rest)
  }

  // -------------------------------------------------- the broker's canonicalJson

  function BrokerJson(v: Value): Option<Text>
    decreases Size(v), 0
  {
    match v
    case Null => Some(NULL)
    case Str(s) => Some(Quote(s))
    case Bool(b) => Some(if b then TRUE else FALSE)
    case NonFinite => None
    case Number(token) => Some(token)
    case Arr(items) =>
      var parts :- BrokerItems(items);
      Some([LBRACKET] + JoinText(parts) + [RBRACKET])
    case Obj(members) =>
      var parts :- BrokerMembers(SortedMembers(members));
      Some([LBRACE] + JoinText(parts) + [RBRACE])
    case Other => None
  }

  function BrokerItems(items: seq<Value>): Option<seq<Text>>
    decreases ItemsSize(items), 1 + |items|
  {
    if items == [] then Some([])
    else
      var first :- BrokerJson(items[0]);
      var rest :- BrokerItems(items[1..]);
      Some([first] + rest)
  }

  function BrokerMembers(members: seq<Member>): Option<seq<Text>>
    decreases MembersSize(members), 1 + |members|
  {
    if members == [] then Some([])
    else
      var first :- BrokerJson(members[0].value);
      var rest :- BrokerMembers(members[1..]);
      Some([Quote(members[0].name) + [COLON] + first] + rest)
  }

  /** The two printers give the same text, or both refuse, on every value. */
  lemma {:induction false} PrintersAgree(v: Value)
    ensures GateJson(v) == BrokerJson(v)
    decreases Size(v), 0
  {
    if v.Arr? { ItemPrintersAgree(v.items); }
    if v.Obj? { MemberPrintersAgree(SortedMembers(v.members)); }
  }

  lemma {:induction false} ItemPrintersAgree(items: seq<Value>)
    ensures GateItems(items) == BrokerItems(items)
    decreases ItemsSize(items), 1 + |items|
  {
    if items != [] {
      PrintersAgree(items[0]);
      ItemPrintersAgree(items[1..]);
    }
  }

  lemma {:induction false} MemberPrintersAgree(members: seq<Member>)
    ensures GateMembers(members) == BrokerMembers(members)
    decreases MembersSize(members), 1 + |members|
  {
    if members != [] {
      PrintersAgree(members[0].value);
      MemberPrintersAgree(members[1..]);
    }
  }
}
