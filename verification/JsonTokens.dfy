/** The lexical tables of the scan and the printer, written in characters. */
module JsonTokens {
  import opened Seqs
  import opened Json
  import opened JsonScanner

  /** The unit at a place of a table of characters. */
  ghost predicate UnitAt(u: Unit, table: string, i: nat) { i < |table| && table[i] as int == u }

  ghost predicate UnitIn(u: Unit, table: string) { exists i :: UnitAt(u, table, i) }

  lemma {:induction false} UnitFound(u: Unit, table: string, i: nat)
    requires UnitAt(u, table, i)
    ensures UnitIn(u, table)
  {
  }

  /** White space is a space, a tab, a line feed or a carriage return. */
  lemma {:induction false} WhiteMeaning(u: Unit)
    ensures White(u) <==> UnitIn(u, " \t\n\r")
  {
    var table := " \t\n\r";
    if White(u) { UnitFound(u, table, if u == 0x20 then 0 else if u == 0x09 then 1 else if u == 0x0a then 2 else 3); }
  }

  /** A number is written with digits, signs, a point and an exponent mark. */
  lemma {:induction false} NumberMeaning(u: Unit)
    ensures NumberUnit(u) <==> UnitIn(u, "0123456789+-.eE")
  {
    var table := "0123456789+-.eE";
    if 0x30 <= u <= 0x39 {
      assert table[u - 0x30] as int == u;
      UnitFound(u, table, u - 0x30);
    } else if NumberUnit(u) {
      var i :=
        if u == 0x2b then 10 else if u == 0x2d then 11 else if u == 0x2e then 12 else if u == 0x65 then 13 else 14;
      UnitFound(u, table, i);
    }
  }

  /** A hexadecimal digit of either case has its value. */
  lemma {:induction false} HexMeaning(u: Unit, d: int)
    ensures HexValue(u) == Some(d) <==>
            0 <= d < 16 && (UnitAt(u, "0123456789abcdef", d) || UnitAt(u, "0123456789ABCDEF", d))
  {
    var lower, upper := "0123456789abcdef", "0123456789ABCDEF";
    if 0 <= d < 10 {
      assert lower[d] as int == 0x30 + d && upper[d] as int == 0x30 + d;
    } else if 10 <= d < 16 {
      assert lower[d] as int == 0x61 + d - 10 && upper[d] as int == 0x41 + d - 10;
    }
  }

  /** Four digits are read from the left, sixteen to one. */
  lemma {:induction false} FourHexMeaning(a: Unit, b: Unit, c: Unit, d: Unit)
    requires IsHex(a) && IsHex(b) && IsHex(c) && IsHex(d)
    ensures FourHex(a, b, c, d)
            == ((HexValue(a).value * 16 + HexValue(b).value) * 16 + HexValue(c).value) * 16 + HexValue(d).value
  {
  }

  /** The eight one-letter escapes and what they stand for. */
  lemma {:induction false} EscapeMeaning(u: Unit, v: Unit)
    ensures ShortEscape(u) == Some(v) <==>
            exists i :: UnitAt(u, "\"\\/bfnrt", i) && UnitAt(v, "\"\\/\U{0008}\U{000C}\n\r\t", i)
  {
    var letters, units := "\"\\/bfnrt", "\"\\/\U{0008}\U{000C}\n\r\t";
    assert |letters| == 8 && |units| == 8;
    if ShortEscape(u) == Some(v) {
      var i :=
        if u == QUOTE then 0 else if u == BACKSLASH then 1 else if u == 0x2f then 2 else if u == 0x62 then 3
        else if u == 0x66 then 4 else if u == 0x6e then 5 else if u == 0x72 then 6 else 7;
      assert UnitAt(u, letters, i) && UnitAt(v, units, i);
    }
    if i: nat :| UnitAt(u, letters, i) && UnitAt(v, units, i) {
      assert i == 0 || i == 1 || i == 2 || i == 3 || i == 4 || i == 5 || i == 6 || i == 7;
    }
  }

  /** The halves of a surrogate pair are two blocks of 1024 units. */
  lemma {:induction false} SurrogateMeaning(u: Unit)
    ensures High(u) <==> u / 1024 == 54
    ensures Low(u) <==> u / 1024 == 55
  {
  }

  /** The marks and words of the grammar. */
  lemma {:induction false} MarksMeaning()
    ensures UnitAt(QUOTE, "\"\\{}[]:,u", 0) && UnitAt(BACKSLASH, "\"\\{}[]:,u", 1)
    ensures UnitAt(LBRACE, "\"\\{}[]:,u", 2) && UnitAt(RBRACE, "\"\\{}[]:,u", 3)
    ensures UnitAt(LBRACKET, "\"\\{}[]:,u", 4) && UnitAt(RBRACKET, "\"\\{}[]:,u", 5)
    ensures UnitAt(COLON, "\"\\{}[]:,u", 6) && UnitAt(COMMA, "\"\\{}[]:,u", 7) && UnitAt(LOWER_U, "\"\\{}[]:,u", 8)
    ensures Spelled(TRUE, "true") && Spelled(FALSE, "false") && Spelled(NULL, "null")
  {
  }

  ghost predicate Spelled(t: Text, word: string) {
    |t| == |word| && forall i :: 0 <= i < |t| ==> UnitAt(t[i], word, i)
  }

  // ----------------------------------------------------------- string tokens

  /** Token `t` is `head`, which stands for `u`, and the rest of the token. */
  ghost predicate Begins(t: Text, u: Unit, rest: Text) {
    || (exists e :: t == [BACKSLASH, e] + rest && e != LOWER_U && ShortEscape(e) == Some(u))
    || (exists a, b, c, d :: HexEscape(t, u, rest, a, b, c, d))
    || (t == [u] + rest && u != QUOTE && u != BACKSLASH && u >= 32)
  }

  ghost predicate HexEscape(t: Text, u: Unit, rest: Text, a: Unit, b: Unit, c: Unit, d: Unit) {
    && t == [BACKSLASH, LOWER_U, a, b, c, d] + rest
    && IsHex(a) && IsHex(b) && IsHex(c) && IsHex(d) && u == FourHex(a, b, c, d)
  }

  lemma {:induction false} BeginsDecodes(t: Text, u: Unit, rest: Text)
    requires Begins(t, u, rest)
    ensures |rest| < |t|
    ensures Decode(t) == if Decode(rest).None? then None else Some([u] + Decode(rest).value)
  {
    if e :| t == [BACKSLASH, e] + rest && e != LOWER_U && ShortEscape(e) == Some(u) {
      assert t[2..] == rest;
    } else if a, b, c, d :| HexEscape(t, u, rest, a, b, c, d) {
      assert t[6..] == rest && t[2] == a && t[3] == b && t[4] == c && t[5] == d;
    } else {
      assert t[1..] == rest;
    }
  }

  /**
   * A token denotes exactly one string: the empty token the empty string, and a longer one the unit that its first
   * character or escape stands for followed by what the rest denotes.
   */
  lemma {:induction false} DecodeMeaning(t: Text, s: Text)
    ensures Decode(t) == Some(s) <==>
            (t == [] && s == [])
            || exists rest :: s != [] && Begins(t, s[0], rest) && Decode(rest) == Some(s[1..])
  {
    if Decode(t) == Some(s) && t != [] {
      var rest := if t[0] != BACKSLASH then t[1..] else if t[1] == LOWER_U then t[6..] else t[2..];
      assert s[1..] == Decode(rest).value;
      if t[0] != BACKSLASH {
        assert t == [s[0]] + rest;
      } else if t[1] == LOWER_U {
        assert HexEscape(t, s[0], rest, t[2], t[3], t[4], t[5]);
      } else {
        assert t == [BACKSLASH, t[1]] + rest;
      }
      assert Begins(t, s[0], rest);
    }
    if rest :| s != [] && Begins(t, s[0], rest) && Decode(rest) == Some(s[1..]) {
      BeginsDecodes(t, s[0], rest);
      assert s == [s[0]] + s[1..];
    }
  }

  /** Every value without objects and numbers is proper; a number is when it prints as a number token. */
  lemma {:induction false} PlainIsProper(v: Value)
    requires !v.Arr? && !v.Obj?
    ensures Proper(v) <==> (v.Number? ==> v.token != [] && forall u :: u in v.token ==> UnitIn(u, "0123456789+-.eE"))
  {
    if v.Number? {
      forall u: Unit ensures NumberUnit(u) <==> UnitIn(u, "0123456789+-.eE") { NumberMeaning(u); }
      assert forall i :: 0 <= i < |v.token| ==> v.token[i] in v.token;
      forall u | u in v.token ensures NumberToken(v.token) ==> NumberUnit(u) {
        var i :| 0 <= i < |v.token| && v.token[i] == u;
      }
    }
  }
}
