/** What the duplicate-key scan accepts: exactly the layouts whose objects repeat no decoded name. */
module JsonScannerMeaning {
  import opened Seqs
  import opened Json
  import opened JsonScanner

  // ------------------------------------------------------- where it may stop

  /** The text stops inside a unicode escape, with `d` of its four digits present. */
  predicate CutEscape(s: Text, d: nat) {
    && d < 4 && |s| >= 2 + d && s[|s| - 2 - d] == BACKSLASH && s[|s| - 1 - d] == LOWER_U
    && forall k :: |s| - d <= k < |s| ==> IsHex(s[k])
  }

  predicate EndsInEscape(s: Text) { CutEscape(s, 0) || CutEscape(s, 1) || CutEscape(s, 2) || CutEscape(s, 3) }

  /** The index moves forward only, and passes the end only out of a cut escape, by one. */
  ghost predicate Within<T>(r: Scan<T>, s: Text, i: nat) {
    match r
    case Ok(next, _) => i <= next <= |s|
    case Bad(at) => i <= at <= |s| || (at == |s| + 1 && EndsInEscape(s))
    case Duplicate(_, at) => i <= at <= |s|
  }

  lemma {:induction false} HexStops(s: Text, i: nat, n: nat)
    requires i <= |s| && n <= 4
    ensures var r := HexEnd(s, i, n);
            match r
            case Ok(next, _) => next == i + n && forall k :: i <= k < i + n ==> IsHex(s[k])
            case Bad(at) => i < at <= |s| || (at == |s| + 1 && |s| < i + n && forall k :: i <= k < |s| ==> IsHex(s[k]))
            case Duplicate(_, _) => false
    decreases n
  {
    if n > 0 && i < |s| && IsHex(s[i]) { HexStops(s, i + 1, n - 1); }
  }

  lemma {:induction false} StringStops(s: Text, i: nat)
    requires i <= |s|
    ensures Within(StringEnd(s, i), s, i) && !StringEnd(s, i).Duplicate?
    decreases |s| - i
  {
    if i < |s| && s[i] != QUOTE {
      if s[i] == BACKSLASH {
        if i + 1 < |s| {
          if s[i + 1] == LOWER_U {
            HexStops(s, i + 2, 4);
            var h := HexEnd(s, i + 2, 4);
            if h.Ok? {
              StringStops(s, h.next);
            } else if h.at == |s| + 1 {
              assert CutEscape(s, |s| - (i + 2));
            }
          } else {
            StringStops(s, i + 2);
          }
        }
      } else if s[i] >= 0x20 {
        StringStops(s, i + 1);
      }
    }
  }

  lemma {:induction false} NameStops(s: Text, i: nat)
    requires i <= |s|
    ensures Within(ScanString(s, i), s, i) && !ScanString(s, i).Duplicate?
  {
    if i < |s| && s[i] == QUOTE { StringStops(s, i + 1); }
  }

  lemma {:induction false} ValueStops(s: Text, i: nat)
    requires i <= |s|
    ensures Within(ScanValue(s, i), s, i)
    decreases |s| - i, 2
  {
    var j := Skip(s, i);
    if j < |s| { CoreStops(s, j, s[i..j]); }
  }

  lemma {:induction false} CoreStops(s: Text, i: nat, space: Text)
    requires i < |s|
    ensures Within(ScanCore(s, i, space), s, i)
    decreases |s| - i, 1
  {
    if s[i] == LBRACE { FieldsStop(s, i + 1, {}); }
    if s[i] == LBRACKET { ItemsStop(s, i + 1); }
    if s[i] == QUOTE { NameStops(s, i); }
  }

  lemma {:induction false} ItemsStop(s: Text, i: nat)
    requires i <= |s|
    ensures Within(ScanItems(s, i), s, i)
    decreases |s| - i, 3
  {
    ValueStops(s, i);
    var v := ScanValue(s, i);
    if v.Ok? {
      var k := Skip(s, v.next);
      if k < |s| && s[k] == COMMA { ItemsStop(s, k + 1); }
    }
  }

  lemma {:induction false} FieldStops(s: Text, i: nat, keys: set<Text>)
    requires i <= |s|
    ensures Within(ScanField(s, i, keys), s, i)
    decreases |s| - i, 3
  {
    var j := Skip(s, i);
    NameStops(s, j);
    var name := ScanString(s, j);
    if name.Ok? {
      var k := Skip(s, name.next);
      if k < |s| && s[k] == COLON { ValueStops(s, k + 1); }
    }
  }

  lemma {:induction false} FieldsStop(s: Text, i: nat, keys: set<Text>)
    requires i <= |s|
    ensures Within(ScanFields(s, i, keys), s, i)
    decreases |s| - i, 4
  {
    FieldStops(s, i, keys);
    var f := ScanField(s, i, keys);
    if f.Ok? {
      var more := keys + {FieldName(f.value)};
      var k := Skip(s, f.next);
      if k < |s| && s[k] == COMMA { FieldsStop(s, k + 1, more); }
    }
  }

  /** The index ends within the text, unless the text ends inside a unicode escape. */
  lemma {:induction false} ScanStops(s: Text)
    ensures Within(ScanText(s), s, 0)
  {
    ValueStops(s, 0);
  }

  /** A text cut inside an escape can leave the index one past its end. */
  lemma {:induction false} CutEscapePassesEnd()
    ensures ScanText([QUOTE, BACKSLASH, LOWER_U]) == Bad(4)
  {
    var s := [QUOTE, BACKSLASH, LOWER_U];
    assert HexEnd(s, 3, 4) == Bad(4);
    assert StringEnd(s, 1) == Bad(4);
    assert Skip(s, 0) == 0;
    assert ScanString(s, 0) == Bad(4);
    assert ScanCore(s, 0, []) == Bad(4);
    assert s[0..0] == [];
  }

  /** Units and whole escapes, none of which closes the string. */
  predicate Open(t: Text) {
    if t == [] then true
    else if t[0] == BACKSLASH then
      && |t| >= 2
      && if t[1] == LOWER_U
         then |t| >= 6 && IsHex(t[2]) && IsHex(t[3]) && IsHex(t[4]) && IsHex(t[5]) && Open(t[6..])
         else Open(t[2..])
    else t[0] != QUOTE && t[0] >= 0x20 && Open(t[1..])
  }

  /** `k` starts an escape that the text cuts short. */
  predicate CutAt(s: Text, k: nat) {
    && k + 2 <= |s| < k + 6 && s[k] == BACKSLASH && s[k + 1] == LOWER_U
    && forall m :: k + 2 <= m < |s| ==> IsHex(s[m])
  }

  lemma {:induction false} OverrunNeedsCut(s: Text, i: nat) returns (k: nat)
    requires i <= |s| && StringEnd(s, i) == Bad(|s| + 1)
    ensures i <= k <= |s| && Open(s[i..k]) && CutAt(s, k)
    decreases |s| - i
  {
    if s[i] == BACKSLASH {
      if s[i + 1] == LOWER_U {
        HexStops(s, i + 2, 4);
        if HexEnd(s, i + 2, 4).Ok? {
          k := OverrunNeedsCut(s, i + 6);
          assert s[i..k][6..] == s[i + 6..k];
        } else {
          k := i;
        }
      } else {
        k := OverrunNeedsCut(s, i + 2);
        assert s[i..k][2..] == s[i + 2..k];
      }
    } else {
      k := OverrunNeedsCut(s, i + 1);
      assert s[i..k][1..] == s[i + 1..k];
    }
  }

  lemma {:induction false} HexRun(s: Text, i: nat, n: nat)
    requires i + n <= |s| && forall m :: i <= m < i + n ==> IsHex(s[m])
    ensures HexEnd(s, i, n) == Ok(i + n, ())
    decreases n
  {
    if n > 0 { HexRun(s, i + 1, n - 1); }
  }

  lemma {:induction false} HexCut(s: Text, i: nat, n: nat)
    requires i <= |s| < i + n && forall m :: i <= m < |s| ==> IsHex(s[m])
    ensures HexEnd(s, i, n) == Bad(|s| + 1)
    decreases n
  {
    if i < |s| { HexCut(s, i + 1, n - 1); }
  }

  lemma {:induction false} StringGoesOn(s: Text, i: nat, k: nat)
    requires i <= k <= |s| && Open(s[i..k])
    ensures StringEnd(s, i) == StringEnd(s, k)
    decreases k - i
  {
    if i < k {
      var t := s[i..k];
      if s[i] == BACKSLASH {
        if s[i + 1] == LOWER_U {
          assert t[6..] == s[i + 6..k];
          assert forall m :: 2 <= m < 6 ==> t[m] == s[i + m];
          HexRun(s, i + 2, 4);
          StringGoesOn(s, i + 6, k);
        } else {
          assert t[2..] == s[i + 2..k];
          StringGoesOn(s, i + 2, k);
        }
      } else {
        assert t[1..] == s[i + 1..k];
        StringGoesOn(s, i + 1, k);
      }
    }
  }

  /** A string token runs past the end exactly when the text cuts one of its unicode escapes. */
  lemma {:induction false} OverrunMeaning(s: Text, i: nat)
    requires i <= |s|
    ensures StringEnd(s, i) == Bad(|s| + 1) <==> exists k :: i <= k <= |s| && Open(s[i..k]) && CutAt(s, k)
  {
    if StringEnd(s, i) == Bad(|s| + 1) {
      var k := OverrunNeedsCut(s, i);
    }
    forall k | i <= k <= |s| && Open(s[i..k]) && CutAt(s, k) ensures StringEnd(s, i) == Bad(|s| + 1) {
      StringGoesOn(s, i, k);
      HexCut(s, k + 2, 4);
    }
  }

  // ---------------------------------------------------------------- placing text

  lemma {:induction false} AtSplit(s: Text, i: nat, a: Text, b: Text)
    ensures At(s, i, a + b) <==> At(s, i, a) && At(s, i + |a|, b)
    ensures |a + b| == |a| + |b|
    decreases a
  {
    if a == [] {
      assert a + b == b;
      AtFits(s, i, b);
    } else {
      AtSplit(s, i + 1, a[1..], b);
      assert (a + b)[1..] == a[1..] + b;
    }
  }

  lemma {:induction false} AtConsed(s: Text, i: nat, u: Unit, b: Text)
    ensures At(s, i, [u] + b) <==> i < |s| && s[i] == u && At(s, i + 1, b)
  {
    assert ([u] + b)[1..] == b;
  }

  lemma {:induction false} SliceAt(s: Text, i: nat, j: nat)
    requires i <= j <= |s|
    ensures At(s, i, s[i..j])
    decreases j - i
  {
    if i < j {
      SliceAt(s, i + 1, j);
      assert s[i..j][1..] == s[i + 1..j];
    }
  }

  lemma {:induction false} SkipIsBlank(s: Text, i: nat)
    requires i <= |s|
    ensures Blank(s[i..Skip(s, i)]) && At(s, i, s[i..Skip(s, i)])
    decreases |s| - i
  {
    SliceAt(s, i, Skip(s, i));
    if i < |s| && White(s[i]) {
      SkipIsBlank(s, i + 1);
      assert s[i..Skip(s, i)] == [s[i]] + s[i + 1..Skip(s, i)];
    }
  }

  lemma {:induction false} SkipExact(s: Text, i: nat, space: Text)
    requires Blank(space) && At(s, i, space) && (i + |space| < |s| ==> !White(s[i + |space|]))
    ensures i + |space| <= |s| && Skip(s, i) == i + |space| && s[i..Skip(s, i)] == space
    decreases |space|
  {
    AtFits(s, i, space);
    if space != [] { SkipExact(s, i + 1, space[1..]); }
  }

  lemma {:induction false} NumberEndIsToken(s: Text, i: nat)
    requires i <= |s|
    ensures forall k :: i <= k < NumberEnd(s, i) ==> NumberUnit(s[k])
    decreases |s| - i
  {
    if i < |s| && NumberUnit(s[i]) { NumberEndIsToken(s, i + 1); }
  }

  lemma {:induction false} NumberEndExact(s: Text, i: nat, token: Text)
    requires At(s, i, token) && (forall k :: 0 <= k < |token| ==> NumberUnit(token[k]))
    requires i + |token| < |s| ==> !NumberUnit(s[i + |token|])
    ensures i + |token| <= |s| && NumberEnd(s, i) == i + |token| && s[i..i + |token|] == token
    decreases |token|
  {
    AtFits(s, i, token);
    if token != [] { NumberEndExact(s, i + 1, token[1..]); }
  }

  /** Text that decodes is open, so a string token ends at its own closing quote. */
  lemma {:induction false} DecodesOpen(t: Text)
    requires Decode(t).Some?
    ensures Open(t)
  {
    if t != [] {
      if t[0] == BACKSLASH {
        DecodesOpen(if t[1] == LOWER_U then t[6..] else t[2..]);
      } else {
        DecodesOpen(t[1..]);
      }
    }
  }

  lemma {:induction false} StringEndExact(s: Text, i: nat, k: nat)
    requires i <= k < |s| && Open(s[i..k]) && s[k] == QUOTE
    ensures StringEnd(s, i) == Ok(k + 1, ())
  {
    StringGoesOn(s, i, k);
  }

  lemma {:induction false} QuotedAt(s: Text, i: nat, body: Text)
    ensures |Quoted(body)| == |body| + 2
    ensures At(s, i, Quoted(body)) <==>
            && i + |body| + 2 <= |s| && s[i] == QUOTE && s[i + 1..i + 1 + |body|] == body
            && s[i + 1 + |body|] == QUOTE
  {
    var k := i + 1 + |body|;
    AtConsed(s, i, QUOTE, body + [QUOTE]);
    AtSplit(s, i + 1, body, [QUOTE]);
    AtFits(s, i + 1, body);
    assert [QUOTE] == [QUOTE] + [];
    AtConsed(s, k, QUOTE, []);
    if k < |s| && s[i + 1..k] == body { SliceAt(s, i + 1, k); }
  }

  lemma {:induction false} StringExact(s: Text, i: nat, body: Text)
    requires Decode(body).Some? && At(s, i, Quoted(body))
    ensures i + |body| + 2 <= |s| && ScanString(s, i) == Ok(i + |body| + 2, body)
  {
    QuotedAt(s, i, body);
    DecodesOpen(body);
    StringEndExact(s, i + 1, i + 1 + |body|);
  }

  lemma {:induction false} StringSound(s: Text, i: nat)
    requires i <= |s| && ScanString(s, i).Ok?
    ensures var r := ScanString(s, i); At(s, i, Quoted(r.value)) && r.next == i + |Quoted(r.value)|
  {
    QuoteEnds(s, i + 1);
    QuotedAt(s, i, s[i + 1..StringEnd(s, i + 1).next - 1]);
  }

  lemma {:induction false} QuoteEnds(s: Text, i: nat)
    requires i <= |s| && StringEnd(s, i).Ok?
    ensures s[StringEnd(s, i).next - 1] == QUOTE
    decreases |s| - i
  {
    if s[i] == BACKSLASH {
      QuoteEnds(s, if s[i + 1] == LOWER_U then HexEnd(s, i + 2, 4).next else i + 2);
    } else if s[i] != QUOTE {
      QuoteEnds(s, i + 1);
    }
  }
}
