/**
 Completeness of the derivation: every rendering of a tree that meets the wire rules is found, up to its end.
 Each lemma is about one derivation function and the text that follows.
 */
module StrictJsonCompleteness {
  import opened Options
  import opened StrictJsonDerivation
  import opened StrictJsonGrammar
  import opened StrictJsonRules
  import opened StrictJsonSoundness

  /** Where in `t` the text `k` stands when `t` ends with it. */
  function At(t: Text, k: Text): int { |t| - |k| }

  /** Past the unit at `i`, what follows it follows. */
  lemma Step(t: Text, i: nat, c: CodeUnit, k: Text)
    requires i <= |t| && From(t, i) == [c] + k
    ensures i < |t| && t[i] == c && At(t, k) == i + 1 && From(t, i + 1) == k
  {
    assert From(t, i)[1..] == k && ([t[i]] + From(t, i + 1))[1..] == From(t, i + 1);
  }

  lemma {:induction false} WsExact(t: Text, i: nat, w: Text, k: Text)
    requires i <= |t| && From(t, i) == w + k
    requires AllWs(w) && (k == [] || !IsWs(k[0]))
    ensures WsEnd(t, i) == At(t, k) == i + |w| && WsText(t, i) == w && From(t, i + |w|) == k
    decreases |w|
  {
    if w == [] {
      assert w + k == k;
    } else {
      assert w + k == [w[0]] + (w[1..] + k);
      Step(t, i, w[0], w[1..] + k);
      WsExact(t, i + 1, w[1..], k);
    }
  }

  lemma {:induction false} DigitsExact(t: Text, i: nat, d: Text, k: Text)
    requires i <= |t| && From(t, i) == d + k
    requires AllDigits(d) && (k == [] || !IsDigit(k[0]))
    ensures DigitsEnd(t, i) == At(t, k) == i + |d| && DigitsText(t, i) == d && From(t, i + |d|) == k
    decreases |d|
  {
    if d == [] {
      assert d + k == k;
    } else {
      assert d + k == [d[0]] + (d[1..] + k);
      Step(t, i, d[0], d[1..] + k);
      DigitsExact(t, i + 1, d[1..], k);
    }
  }

  lemma {:induction false} LiteralExact(t: Text, i: nat, word: Text, k: Text)
    requires i <= |t| && From(t, i) == word + k
    ensures StartsWith(t, i, word) && At(t, k) == i + |word| && From(t, i + |word|) == k
    decreases |word|
  {
    if word == [] {
      assert word + k == k;
    } else {
      assert word + k == [word[0]] + (word[1..] + k);
      Step(t, i, word[0], word[1..] + k);
      LiteralExact(t, i + 1, word[1..], k);
    }
  }

  /** What may follow a numeral without being read as part of it. */
  predicate EndsNumeral(k: Text) {
    k == [] || !(IsDigit(k[0]) || k[0] == DOT || IsExp(k[0]))
  }

  lemma CompleteWhole(t: Text, i: nat, w: Text, k: Text)
    requires i <= |t| && From(t, i) == w + k
    requires AllDigits(w) && |w| >= 1 && (w[0] == ZERO ==> |w| == 1)
    requires k == [] || !IsDigit(k[0])
    ensures i + |w| <= |t| && ParseWhole(t, i) == Ok(w, At(t, k)) && From(t, At(t, k)) == k
  {
    DigitsExact(t, i, w, k);
    assert w + k == [w[0]] + (w[1..] + k);
    Step(t, i, w[0], w[1..] + k);
    assert w[0] == ZERO ==> w == [ZERO];
  }

  lemma CompleteFrac(t: Text, i: nat, f: Option<Text>, k: Text)
    requires i <= |t| && From(t, i) == FracOnto(f, k)
    requires f.Some? ==> AllDigits(f.value) && |f.value| >= 1
    requires k == [] || !(IsDigit(k[0]) || k[0] == DOT)
    ensures 0 <= At(t, k) && ParseFrac(t, i) == Ok(f, At(t, k)) && From(t, At(t, k)) == k
  {
    if f.Some? {
      Step(t, i, DOT, f.value + k);
      DigitsExact(t, i + 1, f.value, k);
    }
  }

  lemma CompleteExp(t: Text, i: nat, x: Option<Exponent>, k: Text)
    requires i <= |t| && From(t, i) == ExpOnto(x, k)
    requires x.Some? ==> GrammaticalExponent(x.value)
    requires EndsNumeral(k)
    ensures 0 <= At(t, k) && ParseExp(t, i) == Ok(x, At(t, k)) && From(t, At(t, k)) == k
  {
    if x.Some? {
      var d := x.value.digits + k;
      var after := if x.value.sign.Some? then [x.value.sign.value] + d else d;
      assert ExpOnto(x, k) == [x.value.e] + after;
      Step(t, i, x.value.e, after);
      if x.value.sign.Some? {
        Step(t, i + 1, x.value.sign.value, d);
        DigitsExact(t, i + 2, x.value.digits, k);
      } else {
        DigitsExact(t, i + 1, x.value.digits, k);
        assert t[i + 1] == d[0];
      }
    }
  }

  lemma CompleteNumeral(t: Text, i: nat, n: Numeral, k: Text)
    requires i <= |t| && From(t, i) == NumeralOnto(n, k)
    requires GrammaticalNumeral(n) && EndsNumeral(k)
    ensures 0 <= At(t, k) && ParseNumeral(t, i) == Ok(n, At(t, k)) && From(t, At(t, k)) == k
  {
    hide From, ParseWhole, ParseFrac, ParseExp;
    var e := ExpOnto(n.exp, k);
    var f := FracOnto(n.frac, e);
    var s := if n.minus then i + 1 else i;
    if n.minus {
      Step(t, i, MINUS, n.whole + f);
    } else {
      assert n.whole + f == [n.whole[0]] + (n.whole[1..] + f);
      Step(t, i, n.whole[0], n.whole[1..] + f);
    }
    CompleteWhole(t, s, n.whole, f);
    CompleteFrac(t, At(t, f), n.frac, e);
    CompleteExp(t, At(t, e), n.exp, k);
  }

  lemma CompleteUnicode(t: Text, j: nat, h: Char, k: Text)
    requires 1 <= j <= |t| && From(t, j - 1) == CharOnto(h, k)
    requires h.Unicode? && GrammaticalChar(h)
    ensures j + 5 == At(t, k) && t[j - 1] == BACKSLASH && t[j] == LOWER_U
    ensures Hex4(t, j + 1) && HexChar(t, j + 1) == h && From(t, j + 5) == k
  {
    FromSlice(t, j - 1, j + 5);
    assert t[j - 1..j + 5] == From(t, j - 1)[..6] == [BACKSLASH, LOWER_U, h.h0, h.h1, h.h2, h.h3];
    assert From(t, j - 1)[6..] == k;
  }

  /** A character, or the halves of a pair written in one form. */
  ghost predicate IsHead(head: seq<Char>) {
    && 1 <= |head| <= 2 && GrammaticalChars(head) && !IsLow(Unit(head[0]))
    && (IsHigh(Unit(head[0])) <==> |head| == 2)
    && (|head| == 2 ==> IsLow(Unit(head[1])) && head[0].Raw? == head[1].Raw?)
  }

  lemma CompleteOneEscape(t: Text, j: nat, h: Char, k: Text)
    requires 1 <= j <= |t| && h.Unicode? && IsHead([h])
    requires From(t, j - 1) == CharOnto(h, k)
    ensures t[j - 1] == BACKSLASH && 0 <= At(t, k)
    ensures ParseEscape(t, j) == Ok([h], At(t, k)) && From(t, At(t, k)) == k
  {
    assert [h][0] == h;
    CompleteUnicode(t, j, h, k);
  }

  lemma CompletePairEscape(t: Text, j: nat, h: Char, l: Char, k: Text)
    requires 1 <= j <= |t| && h.Unicode? && IsHead([h, l])
    requires From(t, j - 1) == CharOnto(h, CharOnto(l, k))
    ensures t[j - 1] == BACKSLASH && 0 <= At(t, k)
    ensures ParseEscape(t, j) == Ok([h, l], At(t, k)) && From(t, At(t, k)) == k
  {
    assert [h, l][0] == h && [h, l][1] == l;
    CompleteUnicode(t, j, h, CharOnto(l, k));
    CompleteUnicode(t, j + 6, l, k);
  }

  lemma CompleteShort(t: Text, j: nat, e: CodeUnit, k: Text)
    requires 1 <= j <= |t| && ShortEscape(e) >= 0 && From(t, j - 1) == [BACKSLASH, e] + k
    ensures t[j - 1] == BACKSLASH && 0 <= At(t, k)
    ensures ParseEscape(t, j) == Ok([Short(e)], At(t, k)) && From(t, At(t, k)) == k
  {
    FromSlice(t, j - 1, j + 1);
    assert t[j - 1..j + 1] == From(t, j - 1)[..2] == [BACKSLASH, e];
    assert From(t, j - 1)[2..] == k;
  }

  lemma CompleteRaw(t: Text, i: nat, head: seq<Char>, k: Text)
    requires i <= |t| && IsHead(head) && head[0].Raw?
    requires From(t, i) == [head[0].c] + (if |head| == 2 then [head[1].c] + k else k)
    ensures i < |t| && t[i] == head[0].c && 0 <= At(t, k)
    ensures ParseHead(t, i) == Ok(head, At(t, k)) && From(t, At(t, k)) == k
  {
    hide From, ParseEscape;
    Step(t, i, head[0].c, if |head| == 2 then [head[1].c] + k else k);
    if |head| == 2 {
      Step(t, i + 1, head[1].c, k);
      assert head == [Raw(t[i]), Raw(t[i + 1])];
    } else {
      assert head == [Raw(t[i])];
    }
  }

  /** One step of `ParseChars` reads off a head. */
  lemma CompleteHead(t: Text, i: nat, head: seq<Char>, k: Text)
    requires i <= |t| && IsHead(head)
    requires From(t, i) == CharsOnto(head, k)
    ensures i < |t| && t[i] != QUOTE && 0 <= At(t, k)
    ensures ParseHead(t, i) == Ok(head, At(t, k)) && From(t, At(t, k)) == k
  {
    hide ParseEscape, From, CharsOnto;
    HeadText(head, k);
    if head[0].Raw? {
      CompleteRaw(t, i, head, k);
    } else if head[0].Short? {
      assert head == [head[0]];
      CompleteShort(t, i + 1, head[0].e, k);
    } else if |head| == 1 {
      assert head == [head[0]];
      CompleteOneEscape(t, i + 1, head[0], k);
    } else {
      assert head == [head[0], head[1]];
      CompletePairEscape(t, i + 1, head[0], head[1], k);
    }
  }

  lemma {:induction false} CompleteChars(t: Text, i: nat, chars: seq<Char>, k: Text)
    requires i <= |t| && From(t, i) == CharsOnto(chars, [QUOTE] + k)
    requires GrammaticalChars(chars) && PairedInForm(chars)
    ensures 0 <= At(t, k) && ParseChars(t, i) == Ok(chars, At(t, k)) && From(t, At(t, k)) == k
    decreases |chars|
  {
    if chars == [] {
      Step(t, i, QUOTE, k);
    } else {
      assert PairedAt(chars, 0);
      var n := if IsHigh(Unit(chars[0])) then 2 else 1;
      var head, tail := chars[..n], chars[n..];
      assert chars == head + tail;
      PairedInFormCons(head, tail);
      var k1 := CharsOnto(tail, [QUOTE] + k);
      CharsOntoAppend(head, tail, [QUOTE] + k);
      CompleteHead(t, i, head, k1);
      CompleteChars(t, At(t, k1), tail, k);
    }
  }

  /** A value starts with none of the units the parser looks for before it. */
  lemma FirstUnit(node: Node, k: Text)
    requires Grammatical(node)
    ensures var s := Onto(node, k); s != [] && !IsWs(s[0]) && s[0] != RBRACKET
  {}

  lemma {:induction false} CompleteAny(t: Text, i: nat, node: Node, k: Text, room: int, finite: Text -> bool)
    requires i <= |t| && From(t, i) == Onto(node, k)
    requires Admissible(node, room, finite) && EndsNumeral(k)
    ensures 0 <= At(t, k) && ParseAny(t, i, room, finite) == Ok(node, At(t, k)) && From(t, At(t, k)) == k
    decreases node, 1
  {
    hide CharsOnto, ItemsOnto, FieldsOnto, ParseChars;
    match node {
      case NullNode => LiteralExact(t, i, NULL, k);
      case BoolNode(b) => LiteralExact(t, i, if b then TRUE else FALSE, k);
      case NumberNode(n) => CompleteNumeral(t, i, n, k);
      case StringNode(chars) =>
        Step(t, i, QUOTE, CharsOnto(chars, [QUOTE] + k));
        CompleteChars(t, i + 1, chars, k);
      case _ => CompleteContainer(t, i, node, k, room, finite);
    }
  }

  lemma {:induction false} CompleteContainer(t: Text, i: nat, node: Node, k: Text, room: int, finite: Text -> bool)
    requires i <= |t| && From(t, i) == Onto(node, k)
    requires Admissible(node, room, finite)
    requires node.EmptyArray? || node.ArrayNode? || node.EmptyObject? || node.ObjectNode?
    ensures 0 <= At(t, k) && ParseAny(t, i, room, finite) == Ok(node, At(t, k)) && From(t, At(t, k)) == k
    decreases node, 0
  {
    hide From, ItemsOnto, FieldsOnto, ParseItems, ParseFields, WsEnd, WsText, AdmissibleItems, AdmissibleFields;
    match node {
      case EmptyArray(w) =>
        Step(t, i, LBRACKET, w + ([RBRACKET] + k));
        CompleteEmpty(t, i + 1, w, RBRACKET, k);
      case ArrayNode(items) =>
        Step(t, i, LBRACKET, ItemsOnto(items, [RBRACKET] + k));
        ArrayRules(items, room, finite);
        CompleteItems(t, i + 1, items, k, room - 1, finite);
      case EmptyObject(w) =>
        Step(t, i, LBRACE, w + ([RBRACE] + k));
        CompleteEmpty(t, i + 1, w, RBRACE, k);
      case ObjectNode(fields) =>
        Step(t, i, LBRACE, FieldsOnto(fields, [RBRACE] + k));
        ObjectRules(fields, room, finite);
        CompleteFields(t, i + 1, fields, k, room - 1, {}, finite);
    }
  }

  lemma CompleteEmpty(t: Text, i: nat, w: Text, close: CodeUnit, k: Text)
    requires i <= |t| && From(t, i) == w + ([close] + k) && AllWs(w) && !IsWs(close)
    ensures WsText(t, i) == w && UnitAt(t, WsEnd(t, i)) == close
    ensures WsEnd(t, i) + 1 == At(t, k) && From(t, At(t, k)) == k
  {
    WsExact(t, i, w, [close] + k);
    Step(t, i + |w|, close, k);
  }

  lemma ItemsRead(t: Text, i: nat, item: Item, e: nat, more: seq<Item>, end: nat, room: int, finite: Text -> bool)
    requires i <= |t| && ParseItem(t, i, room, finite) == Ok(item, e)
    requires if more == [] then UnitAt(t, e) == RBRACKET && end == e + 1
             else UnitAt(t, e) == COMMA && ParseItems(t, e + 1, room, finite) == Ok(more, end)
    ensures ParseItems(t, i, room, finite) == Ok([item] + more, end)
  {
    assert [item] + [] == [item];
  }

  lemma FieldsRead(t: Text, i: nat, f: Field, e: nat, more: seq<Field>, end: nat,
                   room: int, seen: set<Text>, finite: Text -> bool)
    requires i <= |t| && ParseField(t, i, room, seen, finite) == Ok(f, e)
    requires if more == [] then UnitAt(t, e) == RBRACE && end == e + 1
             else UnitAt(t, e) == COMMA
                  && ParseFields(t, e + 1, room, seen + {Units(f.name.chars)}, finite) == Ok(more, end)
    ensures ParseFields(t, i, room, seen, finite) == Ok([f] + more, end)
  {
    assert [f] + [] == [f];
  }

  lemma {:induction false} CompleteItems(t: Text, i: nat, items: seq<Item>, k: Text, room: int, finite: Text -> bool)
    requires i <= |t| && From(t, i) == ItemsOnto(items, [RBRACKET] + k)
    requires items != [] && AdmissibleItems(items, room, finite)
    ensures 0 <= At(t, k) && ParseItems(t, i, room, finite) == Ok(items, At(t, k)) && From(t, At(t, k)) == k
    ensures UnitAt(t, WsEnd(t, i)) != RBRACKET
    decreases items, 1
  {
    hide From, ItemOnto, ItemsOnto, AdmissibleItem, AdmissibleItems, ParseItem, ParseItems, WsEnd;
    var item, more := items[0], items[1..];
    assert items == [item] + more;
    var tail := if more == [] then [RBRACKET] + k else [COMMA] + ItemsOnto(more, [RBRACKET] + k);
    ItemsCons(item, more, room, finite, [RBRACKET] + k);
    CompleteItem(t, i, item, tail, room, finite);
    var e := At(t, tail);
    if more != [] {
      Step(t, e, COMMA, ItemsOnto(more, [RBRACKET] + k));
      assert AdmissibleItems(more, room, finite);
      assert From(t, e + 1) == ItemsOnto(more, [RBRACKET] + k);
      CompleteItems(t, e + 1, more, k, room, finite);
    } else {
      Step(t, e, RBRACKET, k);
    }
    ItemsRead(t, i, item, e, more, At(t, k), room, finite);
  }

  /** Reading one element leaves what follows it. */
  lemma CompleteItem(t: Text, i: nat, item: Item, tail: Text, room: int, finite: Text -> bool)
    requires i <= |t| && From(t, i) == ItemOnto(item, tail)
    requires AdmissibleItem(item, room, finite)
    requires tail == [] || tail[0] in {COMMA, RBRACKET, RBRACE}
    ensures 0 <= At(t, tail) && ParseItem(t, i, room, finite) == Ok(item, At(t, tail)) && From(t, At(t, tail)) == tail
    ensures UnitAt(t, WsEnd(t, i)) != RBRACKET
    decreases item, 0
  {
    hide From, Onto, Grammatical, SurrogatesInForm, FiniteNumbers, Meaning, ParseAny;
    hide WsEnd, WsText;
    var rest := item.after + tail;
    var v := Onto(item.node, rest);
    FirstUnit(item.node, rest);
    WsExact(t, i, item.before, v);
    Step(t, i + |item.before|, v[0], v[1..]);
    CompleteAny(t, i + |item.before|, item.node, rest, room, finite);
    WsExact(t, At(t, rest), item.after, tail);
  }

  lemma {:induction false} CompleteFields(t: Text, i: nat, fields: seq<Field>, k: Text, room: int, seen: set<Text>,
                                          finite: Text -> bool)
    requires i <= |t| && From(t, i) == FieldsOnto(fields, [RBRACE] + k)
    requires fields != [] && AdmissibleFields(fields, room, seen, finite)
    ensures 0 <= At(t, k) && ParseFields(t, i, room, seen, finite) == Ok(fields, At(t, k)) && From(t, At(t, k)) == k
    ensures UnitAt(t, WsEnd(t, i)) != RBRACE
    decreases fields, 1
  {
    hide From, FieldOnto, FieldsOnto, AdmissibleField, AdmissibleFields, ParseField, ParseFields, WsEnd;
    var f, more := fields[0], fields[1..];
    assert fields == [f] + more;
    var tail := if more == [] then [RBRACE] + k else [COMMA] + FieldsOnto(more, [RBRACE] + k);
    FieldsCons(f, more, room, seen, finite, [RBRACE] + k);
    CompleteField(t, i, f, tail, room, seen, finite);
    var e := At(t, tail);
    if more != [] {
      Step(t, e, COMMA, FieldsOnto(more, [RBRACE] + k));
      assert AdmissibleFields(more, room, seen + {Units(f.name.chars)}, finite);
      assert From(t, e + 1) == FieldsOnto(more, [RBRACE] + k);
      CompleteFields(t, e + 1, more, k, room, seen + {Units(f.name.chars)}, finite);
    } else {
      Step(t, e, RBRACE, k);
    }
    FieldsRead(t, i, f, e, more, At(t, k), room, seen, finite);
  }

  /** Reading one member leaves what follows it. */
  lemma CompleteField(t: Text, i: nat, f: Field, tail: Text, room: int, seen: set<Text>, finite: Text -> bool)
    requires i <= |t| && From(t, i) == FieldOnto(f, tail)
    requires AdmissibleField(f, room, finite) && Units(f.name.chars) !in seen
    requires tail != [] && tail[0] in {COMMA, RBRACKET, RBRACE}
    ensures 0 <= At(t, tail) && ParseField(t, i, room, seen, finite) == Ok(f, At(t, tail))
    ensures From(t, At(t, tail)) == tail
    ensures UnitAt(t, WsEnd(t, i)) == QUOTE
    decreases f, 0
  {
    hide From, ItemOnto, NameOnto, AdmissibleItem, ParseItem, ParseName, WsEnd;
    var v := ItemOnto(f.item, tail);
    CompleteName(t, i, f.name, [COLON] + v, seen);
    Step(t, At(t, [COLON] + v), COLON, v);
    CompleteItem(t, At(t, v), f.item, tail, room, finite);
  }

  lemma CompleteName(t: Text, i: nat, n: Name, k: Text, seen: set<Text>)
    requires i <= |t| && From(t, i) == NameOnto(n, k)
    requires GrammaticalName(n) && PairedInForm(n.chars) && Units(n.chars) !in seen
    requires k != [] && !IsWs(k[0])
    ensures 0 <= At(t, k) && ParseName(t, i, seen) == Ok(n, At(t, k)) && From(t, At(t, k)) == k
    ensures UnitAt(t, WsEnd(t, i)) == QUOTE
  {
    hide From, GrammaticalChars, PairedInForm, CharsOnto, ParseChars, WsEnd, WsText, Units;
    var r := n.after + k;
    WsExact(t, i, n.before, StringOnto(n.chars, r));
    Step(t, i + |n.before|, QUOTE, CharsOnto(n.chars, [QUOTE] + r));
    CompleteChars(t, i + |n.before| + 1, n.chars, r);
    WsExact(t, At(t, r), n.after, k);
  }
}
