/**
 Surrogates in a well-formed text: the parser wants every pair written in one form, raw or escaped, and inside a
 well-formed text that is no more than well-formed strings.
 */
module StrictJsonSurrogates {
  import opened JsonValues
  import opened StrictJsonGrammar
  import opened StrictJsonRules
  import opened StrictJsonSoundness

  /** `Paired`, but for a low surrogate that comes first: closed under dropping a front part. */
  ghost predicate PairedInside(s: Text) {
    forall i | 0 <= i < |s| :: FollowedByLow(s, i) && (IsLow(s[i]) && 0 < i ==> IsHigh(s[i - 1]))
  }

  lemma PairedInsideTail(a: Text, b: Text)
    requires PairedInside(a + b)
    ensures PairedInside(b)
  {
    var s := a + b;
    forall i | 0 <= i < |b|
      ensures FollowedByLow(b, i) && (IsLow(b[i]) && 0 < i ==> IsHigh(b[i - 1]))
    {
      assert FollowedByLow(s, |a| + i);
      assert b == s[|a|..];
      assert 0 < i ==> s[|a| + i - 1] == b[i - 1];
    }
  }

  lemma {:induction false} CharsOntoAppends(chars: seq<Char>, k: Text)
    ensures CharsOnto(chars, k) == CharsOnto(chars, []) + k
  {
    if chars != [] {
      CharsOntoAppends(chars[1..], k);
    }
  }

  /** In a well-formed text the two halves of a pair are written in one form. */
  lemma PairWrittenInForm(chars: seq<Char>, i: nat, k: Text)
    requires GrammaticalChars(chars) && i + 1 < |chars|
    requires PairedInside(CharsOnto(chars, k))
    requires IsHigh(Unit(chars[i])) && IsLow(Unit(chars[i + 1]))
    ensures chars[i].Raw? == chars[i + 1].Raw?
  {
    var front, back := chars[..i], chars[i..];
    assert chars == front + back;
    CharsOntoAppend(front, back, k);
    CharsOntoAppends(front, CharsOnto(back, k));
    PairedInsideTail(CharsOnto(front, []), CharsOnto(back, k));
    var s := CharsOnto(back, k);
    var k2 := CharsOnto(back[1..][1..], k);
    assert s == CharOnto(chars[i], CharOnto(chars[i + 1], k2)) by {
      assert back[0] == chars[i] && back[1..][0] == chars[i + 1];
    }
    var next := if chars[i + 1].Raw? then chars[i + 1].c else BACKSLASH;
    assert CharOnto(chars[i + 1], k2)[0] == next;
    if chars[i].Raw? {
      assert FollowedByLow(s, 0) && s[1] == next;
    } else {
      assert s[5] == chars[i].h3 && s[6] == next;
    }
  }

  /** In a well-formed text a string's surrogates are paired in form when its value is well
      formed; the converse holds in any text. */
  lemma StringInForm(chars: seq<Char>, k: Text)
    requires GrammaticalChars(chars)
    ensures PairedInForm(chars) ==> Paired(Units(chars))
    ensures PairedInside(CharsOnto(chars, k)) && Paired(Units(chars)) ==> PairedInForm(chars)
  {
    hide Unit, CharsOnto, PairedInside, GrammaticalChar, GrammaticalChars;
    var u := Units(chars);
    if PairedInForm(chars) {
      forall i | 0 <= i < |u|
        ensures FollowedByLow(u, i) && PrecededByHigh(u, i)
      {
        assert PairedAt(chars, i);
      }
    }
    if PairedInside(CharsOnto(chars, k)) && Paired(u) {
      forall i | 0 <= i < |chars| ensures PairedAt(chars, i) {
        assert FollowedByLow(u, i) && PrecededByHigh(u, i) && u[i] == Unit(chars[i]);
        if IsHigh(u[i]) {
          PairWrittenInForm(chars, i, k);
        }
        if IsLow(u[i]) {
          PairWrittenInForm(chars, i - 1, k);
        }
      }
    }
  }

  /** What is printed ends with what it was printed onto. */
  lemma {:induction false} OntoAppends(node: Node, k: Text)
    ensures Onto(node, k) == Onto(node, []) + k
    decreases node, 0
  {
    match node {
      case NumberNode(n) => NumeralOntoAppends(n, k);
      case StringNode(chars) => StringOntoAppends(chars, k);
      case ArrayNode(items) =>
        ItemsOntoAppends(items, [RBRACKET] + k);
        ItemsOntoAppends(items, [RBRACKET]);
        assert [RBRACKET] + [] == [RBRACKET];
      case ObjectNode(fields) =>
        FieldsOntoAppends(fields, [RBRACE] + k);
        FieldsOntoAppends(fields, [RBRACE]);
        assert [RBRACE] + [] == [RBRACE];
      case _ =>
    }
  }

  lemma StringOntoAppends(chars: seq<Char>, k: Text)
    ensures StringOnto(chars, k) == StringOnto(chars, []) + k
  {
    CharsOntoAppends(chars, [QUOTE] + k);
    CharsOntoAppends(chars, [QUOTE]);
    assert [QUOTE] + [] == [QUOTE];
  }

  lemma {:induction false} ItemOntoAppends(item: Item, k: Text)
    ensures ItemOnto(item, k) == ItemOnto(item, []) + k
    decreases item, 1
  {
    OntoAppends(item.node, item.after + k);
    OntoAppends(item.node, item.after);
    assert item.after + [] == item.after;
  }

  lemma {:induction false} ItemsOntoAppends(items: seq<Item>, k: Text)
    ensures ItemsOnto(items, k) == ItemsOnto(items, []) + k
    decreases items, 2
  {
    if items != [] {
      ItemOntoAppends(items[0], if |items| == 1 then k else [COMMA] + ItemsOnto(items[1..], k));
      ItemOntoAppends(items[0], if |items| == 1 then [] else [COMMA] + ItemsOnto(items[1..], []));
      ItemsOntoAppends(items[1..], k);
    }
  }

  lemma {:induction false} FieldOntoAppends(f: Field, k: Text)
    ensures FieldOnto(f, k) == FieldOnto(f, []) + k
    decreases f, 1
  {
    var v, v0 := [COLON] + ItemOnto(f.item, k), [COLON] + ItemOnto(f.item, []);
    ItemOntoAppends(f.item, k);
    StringOntoAppends(f.name.chars, f.name.after + v);
    StringOntoAppends(f.name.chars, f.name.after + v0);
    assert f.name.after + v == (f.name.after + v0) + k;
  }

  lemma {:induction false} FieldsOntoAppends(fields: seq<Field>, k: Text)
    ensures FieldsOnto(fields, k) == FieldsOnto(fields, []) + k
    decreases fields, 2
  {
    if fields != [] {
      FieldOntoAppends(fields[0], if |fields| == 1 then k else [COMMA] + FieldsOnto(fields[1..], k));
      FieldOntoAppends(fields[0], if |fields| == 1 then [] else [COMMA] + FieldsOnto(fields[1..], []));
      FieldsOntoAppends(fields[1..], k);
    }
  }

  /** In a well-formed text, writing surrogates in one form is the same as having well-formed
      strings; in any text it is no less. */
  lemma {:induction false} InForm(node: Node, k: Text)
    requires Grammatical(node)
    ensures SurrogatesInForm(node) ==> WellFormedStrings(Meaning(node))
    ensures PairedInside(Onto(node, k)) && WellFormedStrings(Meaning(node)) ==> SurrogatesInForm(node)
    decreases node, 0
  {
    match node {
      case StringNode(chars) =>
        StringInForm(chars, [QUOTE] + k);
        assert StringOnto(chars, k) == [QUOTE] + CharsOnto(chars, [QUOTE] + k);
        if PairedInside(Onto(node, k)) { PairedInsideTail([QUOTE], CharsOnto(chars, [QUOTE] + k)); }
      case ArrayNode(items) =>
        var v := Meaning(node);
        assert forall i | 0 <= i < |items| :: v.items[i] == Meaning(items[i].node);
        if PairedInside(Onto(node, k)) { PairedInsideTail([LBRACKET], ItemsOnto(items, [RBRACKET] + k)); }
        forall i | 0 <= i < |items|
          ensures SurrogatesInForm(items[i].node) ==> WellFormedStrings(v.items[i])
          ensures PairedInside(Onto(node, k)) && WellFormedStrings(v.items[i]) ==> SurrogatesInForm(items[i].node)
        {
          assert GrammaticalItem(items[i]);
          var k' := ItemInside(items, i, [RBRACKET] + k);
          InForm(items[i].node, k');
        }
      case ObjectNode(fields) =>
        var m := Meaning(node).members;
        assert forall i | 0 <= i < |fields| ::
            m[i] == Member(Units(fields[i].name.chars), Meaning(fields[i].item.node));
        if PairedInside(Onto(node, k)) { PairedInsideTail([LBRACE], FieldsOnto(fields, [RBRACE] + k)); }
        forall i | 0 <= i < |fields|
          ensures PairedInForm(fields[i].name.chars) && SurrogatesInForm(fields[i].item.node)
              ==> Paired(m[i].name) && WellFormedStrings(m[i].value)
          ensures PairedInside(Onto(node, k)) && Paired(m[i].name) && WellFormedStrings(m[i].value)
              ==> PairedInForm(fields[i].name.chars) && SurrogatesInForm(fields[i].item.node)
        {
          assert GrammaticalName(fields[i].name) && GrammaticalItem(fields[i].item);
          var k1, k2 := FieldInside(fields, i, [RBRACE] + k);
          StringInForm(fields[i].name.chars, k1);
          InForm(fields[i].item.node, k2);
        }
      case _ =>
    }
  }

  /** The text from element `i` on, if the whole list stands in a well-formed text. */
  lemma {:induction false} ItemInside(items: seq<Item>, i: nat, k: Text) returns (k': Text)
    requires i < |items|
    ensures PairedInside(ItemsOnto(items, k)) ==> PairedInside(Onto(items[i].node, k'))
  {
    var rest := if |items| == 1 then k else [COMMA] + ItemsOnto(items[1..], k);
    assert ItemsOnto(items, k) == ItemOnto(items[0], rest);
    if i == 0 {
      k' := items[0].after + rest;
      if PairedInside(ItemsOnto(items, k)) { PairedInsideTail(items[0].before, Onto(items[0].node, k')); }
    } else {
      ItemOntoAppends(items[0], rest);
      k' := ItemInside(items[1..], i - 1, k);
      if PairedInside(ItemsOnto(items, k)) {
        PairedInsideTail(ItemOnto(items[0], []), rest);
        PairedInsideTail([COMMA], ItemsOnto(items[1..], k));
      }
    }
  }

  lemma {:induction false} FieldInside(fields: seq<Field>, i: nat, k: Text) returns (k1: Text, k2: Text)
    requires i < |fields|
    ensures PairedInside(FieldsOnto(fields, k)) ==>
        PairedInside(CharsOnto(fields[i].name.chars, k1)) && PairedInside(Onto(fields[i].item.node, k2))
  {
    var rest := if |fields| == 1 then k else [COMMA] + FieldsOnto(fields[1..], k);
    assert FieldsOnto(fields, k) == FieldOnto(fields[0], rest);
    if i == 0 {
      k1, k2 := FieldParts(fields[0], rest);
    } else {
      FieldOntoAppends(fields[0], rest);
      k1, k2 := FieldInside(fields[1..], i - 1, k);
      if PairedInside(FieldsOnto(fields, k)) {
        PairedInsideTail(FieldOnto(fields[0], []), rest);
        PairedInsideTail([COMMA], FieldsOnto(fields[1..], k));
      }
    }
  }

  lemma FieldParts(f: Field, rest: Text) returns (k1: Text, k2: Text)
    ensures PairedInside(FieldOnto(f, rest)) ==>
        PairedInside(CharsOnto(f.name.chars, k1)) && PairedInside(Onto(f.item.node, k2))
  {
    var r := f.name.after + ([COLON] + ItemOnto(f.item, rest));
    k1, k2 := [QUOTE] + r, f.item.after + rest;
    if PairedInside(FieldOnto(f, rest)) {
      PairedInsideTail(f.name.before, StringOnto(f.name.chars, r));
      PairedInsideTail([QUOTE], CharsOnto(f.name.chars, k1));
      CharsOntoAppends(f.name.chars, k1);
      PairedInsideTail(CharsOnto(f.name.chars, []), k1);
      PairedInsideTail([QUOTE], r);
      PairedInsideTail(f.name.after, [COLON] + ItemOnto(f.item, rest));
      PairedInsideTail([COLON], ItemOnto(f.item, rest));
      PairedInsideTail(f.item.before, Onto(f.item.node, k2));
    }
  }
}
