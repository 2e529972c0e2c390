/**
 Soundness of the derivation: whatever it finds prints back to the text that was read and meets the wire rules.
 Each lemma is about one derivation function.
 */
module StrictJsonSoundness {
  import opened Sequences
  import opened StrictJsonDerivation
  import opened StrictJsonGrammar
  import opened StrictJsonRules

  lemma {:induction false} WsSplit(t: Text, i: nat)
    requires i <= |t|
    ensures From(t, i) == WsText(t, i) + From(t, WsEnd(t, i)) && AllWs(WsText(t, i))
    decreases |t| - i
  {
    if i < |t| && IsWs(t[i]) {
      WsSplit(t, i + 1);
      Assoc([t[i]], WsText(t, i + 1), From(t, WsEnd(t, i + 1)));
    }
  }

  lemma {:induction false} DigitsSplit(t: Text, i: nat)
    requires i <= |t|
    ensures From(t, i) == DigitsText(t, i) + From(t, DigitsEnd(t, i)) && AllDigits(DigitsText(t, i))
    decreases |t| - i
  {
    if i < |t| && IsDigit(t[i]) {
      DigitsSplit(t, i + 1);
      Assoc([t[i]], DigitsText(t, i + 1), From(t, DigitsEnd(t, i + 1)));
    }
  }

  lemma {:induction false} FromSlice(t: Text, i: nat, e: nat)
    requires i <= e <= |t|
    ensures From(t, i) == t[i..e] + From(t, e)
    decreases e - i
  {
    if i < e {
      FromSlice(t, i + 1, e);
      assert t[i..e] == [t[i]] + t[i + 1..e];
    }
  }

  lemma SoundUnicode(t: Text, i: nat)
    requires UnitAt(t, i) == BACKSLASH && UnitAt(t, i + 1) == LOWER_U && Hex4(t, i + 2)
    ensures From(t, i) == CharOnto(HexChar(t, i + 2), From(t, i + 6))
  {
    FromSlice(t, i, i + 6);
    assert t[i..i + 6] == [BACKSLASH, LOWER_U, t[i + 2], t[i + 3], t[i + 4], t[i + 5]];
  }

  lemma SoundShort(t: Text, i: nat)
    requires i + 1 < |t|
    ensures From(t, i) == [t[i], t[i + 1]] + From(t, i + 2)
  {
    FromSlice(t, i, i + 2);
    assert t[i..i + 2] == [t[i], t[i + 1]];
  }

  lemma SoundEscape(t: Text, i: nat)
    requires UnitAt(t, i) == BACKSLASH && ParseEscape(t, i + 1).Ok?
    ensures var p := ParseEscape(t, i + 1);
            1 <= |p.value| <= 2 && From(t, i) == CharsOnto(p.value, From(t, p.end))
  {
    var p := ParseEscape(t, i + 1);
    var k := From(t, p.end);
    HeadText(p.value, k);
    if ShortEscape(t[i + 1]) >= 0 {
      SoundShort(t, i);
    } else {
      SoundUnicodeEscape(t, i);
    }
  }

  lemma SoundUnicodeEscape(t: Text, i: nat)
    requires UnitAt(t, i) == BACKSLASH && ParseEscape(t, i + 1).Ok? && ShortEscape(t[i + 1]) < 0
    ensures var p := ParseEscape(t, i + 1);
            var k := From(t, p.end);
            From(t, i) == if |p.value| == 2 then CharOnto(p.value[0], CharOnto(p.value[1], k))
                          else CharOnto(p.value[0], k)
  {
    SoundUnicode(t, i);
    if IsHigh(Unit(HexChar(t, i + 2))) {
      SoundUnicode(t, i + 6);
    }
  }

  /** What is read off a string prints back and may stand before any string. */
  lemma SoundHead(t: Text, i: nat)
    requires ParseHead(t, i).Ok? && t[i] != QUOTE
    ensures var p := ParseHead(t, i);
            && From(t, i) == CharsOnto(p.value, From(t, p.end))
            && GrammaticalChars(p.value)
            && forall tail :: PairedInForm(p.value + tail) <==> PairedInForm(tail)
  {
    var p := ParseHead(t, i);
    if t[i] == BACKSLASH {
      SoundEscape(t, i);
    } else {
      HeadText(p.value, From(t, p.end));
    }
    forall tail ensures PairedInForm(p.value + tail) <==> PairedInForm(tail) {
      PairedInFormCons(p.value, tail);
    }
  }

  lemma HeadText(head: seq<Char>, k: Text)
    requires 1 <= |head| <= 2
    ensures CharsOnto(head, k)
         == if |head| == 1 then CharOnto(head[0], k) else CharOnto(head[0], CharOnto(head[1], k))
  {
    assert |head| == 2 ==> head[1..][1..] == [];
  }

  lemma {:induction false} SoundChars(t: Text, i: nat)
    requires ParseChars(t, i).Ok?
    ensures var p := ParseChars(t, i);
            && From(t, i) == CharsOnto(p.value, [QUOTE] + From(t, p.end))
            && GrammaticalChars(p.value) && PairedInForm(p.value)
    decreases |t| - i
  {
    var p := ParseChars(t, i);
    if t[i] == QUOTE {
    } else {
      var q := ParseHead(t, i);
      SoundHead(t, i);
      SoundChars(t, q.end);
      CharsOntoAppend(q.value, ParseChars(t, q.end).value, [QUOTE] + From(t, p.end));
    }
  }

  lemma SoundWhole(t: Text, i: nat)
    requires ParseWhole(t, i).Ok?
    ensures var p := ParseWhole(t, i);
            && From(t, i) == p.value + From(t, p.end)
            && AllDigits(p.value) && |p.value| >= 1 && (p.value[0] == ZERO ==> |p.value| == 1)
  {
    DigitsSplit(t, i);
  }

  lemma SoundFrac(t: Text, i: nat)
    requires i <= |t| && ParseFrac(t, i).Ok?
    ensures var p := ParseFrac(t, i);
            && From(t, i) == FracOnto(p.value, From(t, p.end))
            && (p.value.Some? ==> AllDigits(p.value.value) && |p.value.value| >= 1)
  {
    if ParseFrac(t, i).value.Some? {
      DigitsSplit(t, i + 1);
    }
  }

  lemma SoundExp(t: Text, i: nat)
    requires i <= |t| && ParseExp(t, i).Ok?
    ensures var p := ParseExp(t, i);
            && From(t, i) == ExpOnto(p.value, From(t, p.end))
            && (p.value.Some? ==> GrammaticalExponent(p.value.value))
  {
    var p := ParseExp(t, i);
    if p.value.Some? {
      var d := if p.value.value.sign.Some? then i + 2 else i + 1;
      DigitsSplit(t, d);
      FromSlice(t, i, d);
    }
  }

  lemma SoundNumeral(t: Text, i: nat)
    requires ParseNumeral(t, i).Ok?
    ensures var p := ParseNumeral(t, i);
            From(t, i) == NumeralOnto(p.value, From(t, p.end)) && GrammaticalNumeral(p.value)
  {
    var s := if UnitAt(t, i) == MINUS then i + 1 else i;
    var w := ParseWhole(t, s);
    var f := ParseFrac(t, w.end);
    SoundWhole(t, s);
    SoundFrac(t, w.end);
    SoundExp(t, f.end);
    assert s == i + 1 ==> From(t, i) == [t[i]] + From(t, s);
  }

  lemma NumeralOntoAppends(n: Numeral, k: Text)
    ensures NumeralOnto(n, k) == PrintNumeral(n) + k
  {
    var e := ExpOnto(n.exp, []);
    assert ExpOnto(n.exp, k) == e + k;
    assert FracOnto(n.frac, e + k) == FracOnto(n.frac, e) + k;
  }

  /** The slice a numeral was read from is what the numeral prints to. */
  lemma NumeralSlice(t: Text, i: nat)
    requires ParseNumeral(t, i).Ok?
    ensures var p := ParseNumeral(t, i); PrintNumeral(p.value) == t[i..p.end]
  {
    var p := ParseNumeral(t, i);
    SoundNumeral(t, i);
    NumeralOntoAppends(p.value, From(t, p.end));
    FromSlice(t, i, p.end);
    var n, k := PrintNumeral(p.value), From(t, p.end);
    assert n == (n + k)[..|n|] && t[i..p.end] == (t[i..p.end] + k)[..p.end - i];
  }

  lemma SoundLiteral(t: Text, i: nat, word: Text)
    requires StartsWith(t, i, word)
    ensures From(t, i) == word + From(t, i + |word|)
    decreases |word|
  {
    if word != [] {
      SoundLiteral(t, i + 1, word[1..]);
    }
  }

  lemma {:induction false} SoundAny(t: Text, i: nat, room: int, finite: Text -> bool)
    requires i <= |t| && ParseAny(t, i, room, finite).Ok?
    ensures var p := ParseAny(t, i, room, finite);
            From(t, i) == Onto(p.value, From(t, p.end)) && Admissible(p.value, room, finite)
    decreases |t| - i, 0
  {
    if t[i] == LBRACE {
      SoundObject(t, i + 1, room, finite);
    } else if t[i] == LBRACKET {
      SoundArray(t, i + 1, room, finite);
    } else if t[i] == QUOTE {
      SoundChars(t, i + 1);
    } else if t[i] == MINUS || IsDigit(t[i]) {
      SoundNumeral(t, i);
    } else {
      SoundLiteral(t, i, if t[i] == TRUE[0] then TRUE else if t[i] == FALSE[0] then FALSE else NULL);
    }
  }

  lemma {:induction false} SoundArray(t: Text, i: nat, room: int, finite: Text -> bool)
    requires i <= |t| && ParseArray(t, i, room - 1, finite).Ok?
    ensures var p := ParseArray(t, i, room - 1, finite);
            [LBRACKET] + From(t, i) == Onto(p.value, From(t, p.end)) && Admissible(p.value, room, finite)
    decreases |t| - i, 3
  {
    var p := ParseArray(t, i, room - 1, finite);
    if p.value.EmptyArray? {
      WsSplit(t, i);
    } else {
      SoundItems(t, i, room - 1, finite);
      ArrayRules(p.value.items, room, finite);
    }
  }

  lemma {:induction false} SoundItems(t: Text, i: nat, room: int, finite: Text -> bool)
    requires i <= |t| && ParseItems(t, i, room, finite).Ok?
    ensures var p := ParseItems(t, i, room, finite);
            && From(t, i) == ItemsOnto(p.value, [RBRACKET] + From(t, p.end))
            && p.value != [] && AdmissibleItems(p.value, room, finite)
    decreases |t| - i, 2
  {
    var p := ParseItems(t, i, room, finite);
    var q := ParseItem(t, i, room, finite);
    SoundItem(t, i, room, finite);
    var more := if t[q.end] == COMMA then ParseItems(t, q.end + 1, room, finite).value else [];
    if t[q.end] == COMMA {
      SoundItems(t, q.end + 1, room, finite);
    }
    assert p.value == [q.value] + more;
    ItemsCons(q.value, more, room, finite, [RBRACKET] + From(t, p.end));
  }

  lemma {:induction false} SoundItem(t: Text, i: nat, room: int, finite: Text -> bool)
    requires i <= |t| && ParseItem(t, i, room, finite).Ok?
    ensures var p := ParseItem(t, i, room, finite);
            From(t, i) == ItemOnto(p.value, From(t, p.end)) && AdmissibleItem(p.value, room, finite)
    decreases |t| - i, 1
  {
    WsSplit(t, i);
    SoundAny(t, WsEnd(t, i), room, finite);
    WsSplit(t, ParseAny(t, WsEnd(t, i), room, finite).end);
  }

  lemma {:induction false} SoundObject(t: Text, i: nat, room: int, finite: Text -> bool)
    requires i <= |t| && ParseObject(t, i, room - 1, finite).Ok?
    ensures var p := ParseObject(t, i, room - 1, finite);
            [LBRACE] + From(t, i) == Onto(p.value, From(t, p.end)) && Admissible(p.value, room, finite)
    decreases |t| - i, 3
  {
    var p := ParseObject(t, i, room - 1, finite);
    if p.value.EmptyObject? {
      WsSplit(t, i);
    } else {
      SoundFields(t, i, room - 1, {}, finite);
      ObjectRules(p.value.fields, room, finite);
    }
  }

  lemma {:induction false} SoundFields(t: Text, i: nat, room: int, seen: set<Text>, finite: Text -> bool)
    requires i <= |t| && ParseFields(t, i, room, seen, finite).Ok?
    ensures var p := ParseFields(t, i, room, seen, finite);
            && From(t, i) == FieldsOnto(p.value, [RBRACE] + From(t, p.end))
            && p.value != [] && AdmissibleFields(p.value, room, seen, finite)
    decreases |t| - i, 2
  {
    hide ParseField, FieldsOnto, FieldOnto, AdmissibleField;
    var p := ParseFields(t, i, room, seen, finite);
    var q := ParseField(t, i, room, seen, finite);
    SoundField(t, i, room, seen, finite);
    var seen' := seen + {Units(q.value.name.chars)};
    var more := if t[q.end] == COMMA then ParseFields(t, q.end + 1, room, seen', finite).value else [];
    if t[q.end] == COMMA {
      SoundFields(t, q.end + 1, room, seen', finite);
    }
    assert p.value == [q.value] + more;
    FieldsCons(q.value, more, room, seen, finite, [RBRACE] + From(t, p.end));
  }

  lemma {:induction false} SoundField(t: Text, i: nat, room: int, seen: set<Text>, finite: Text -> bool)
    requires i <= |t| && ParseField(t, i, room, seen, finite).Ok?
    ensures var p := ParseField(t, i, room, seen, finite);
            && From(t, i) == FieldOnto(p.value, From(t, p.end))
            && AdmissibleField(p.value, room, finite) && Units(p.value.name.chars) !in seen
    decreases |t| - i, 1
  {
    var n := ParseName(t, i, seen);
    SoundName(t, i, seen);
    SoundItem(t, n.end + 1, room, finite);
  }

  lemma SoundName(t: Text, i: nat, seen: set<Text>)
    requires i <= |t| && ParseName(t, i, seen).Ok?
    ensures var p := ParseName(t, i, seen);
            && From(t, i) == NameOnto(p.value, From(t, p.end))
            && GrammaticalName(p.value) && PairedInForm(p.value.chars) && Units(p.value.chars) !in seen
  {
    var b := WsEnd(t, i);
    WsSplit(t, i);
    SoundChars(t, b + 1);
    WsSplit(t, ParseChars(t, b + 1).end);
  }
}
