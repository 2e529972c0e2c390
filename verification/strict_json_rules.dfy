/**
 The wire rules on concrete syntax trees: the grammar of RFC 8259, surrogates paired in one form, distinct decoded
 names, finite numbers and bounded nesting, with how they pass from a container to its parts.
 */
module StrictJsonRules {
  import opened JsonValues
  import opened StrictJsonGrammar

  /** The wire rules on a tree: RFC 8259 grammar, surrogates paired, distinct names, finite
      numbers, and at most `n` containers deep. */
  ghost predicate Admissible(node: Node, n: int, finite: Text -> bool) {
    && Grammatical(node) && SurrogatesInForm(node)
    && UniqueNames(Meaning(node)) && NestsWithin(Meaning(node), n) && FiniteNumbers(Meaning(node), finite)
  }

  ghost predicate AdmissibleItem(item: Item, n: int, finite: Text -> bool) {
    AllWs(item.before) && Admissible(item.node, n, finite) && AllWs(item.after)
  }

  ghost predicate AdmissibleField(f: Field, n: int, finite: Text -> bool) {
    GrammaticalName(f.name) && PairedInForm(f.name.chars) && AdmissibleItem(f.item, n, finite)
  }

  ghost predicate AdmissibleItems(items: seq<Item>, n: int, finite: Text -> bool) {
    forall i | 0 <= i < |items| :: AdmissibleItem(items[i], n, finite)
  }

  ghost predicate AdmissibleFields(fields: seq<Field>, n: int, seen: set<Text>, finite: Text -> bool) {
    && (forall i | 0 <= i < |fields| ::
          AdmissibleField(fields[i], n, finite) && Units(fields[i].name.chars) !in seen)
    && forall i, j | 0 <= i < j < |fields| :: Units(fields[i].name.chars) != Units(fields[j].name.chars)
  }

  lemma ArrayRules(items: seq<Item>, n: int, finite: Text -> bool)
    ensures Admissible(ArrayNode(items), n, finite)
       <==> items != [] && 1 <= n && AdmissibleItems(items, n - 1, finite)
  {
    var v := Meaning(ArrayNode(items));
    assert forall i | 0 <= i < |items| :: v.items[i] == Meaning(items[i].node);
    if Admissible(ArrayNode(items), n, finite) {
      forall i | 0 <= i < |items| ensures AdmissibleItem(items[i], n - 1, finite) {
        assert GrammaticalItem(items[i]) && SurrogatesInForm(items[i].node);
        assert UniqueNames(v.items[i]) && NestsWithin(v.items[i], n - 1) && FiniteNumbers(v.items[i], finite);
      }
    }
    if items != [] && 1 <= n && AdmissibleItems(items, n - 1, finite) {
      forall i | 0 <= i < |items|
        ensures GrammaticalItem(items[i]) && SurrogatesInForm(items[i].node)
        ensures UniqueNames(v.items[i]) && NestsWithin(v.items[i], n - 1) && FiniteNumbers(v.items[i], finite)
      {
        assert AdmissibleItem(items[i], n - 1, finite);
      }
    }
  }

  lemma ObjectRules(fields: seq<Field>, n: int, finite: Text -> bool)
    ensures Admissible(ObjectNode(fields), n, finite)
       <==> fields != [] && 1 <= n && AdmissibleFields(fields, n - 1, {}, finite)
  {
    var v := Meaning(ObjectNode(fields));
    var m := v.members;
    assert forall i | 0 <= i < |fields| ::
        m[i].name == Units(fields[i].name.chars) && m[i].value == Meaning(fields[i].item.node);
    if Admissible(ObjectNode(fields), n, finite) {
      forall i | 0 <= i < |fields| ensures AdmissibleField(fields[i], n - 1, finite) {
        assert GrammaticalName(fields[i].name) && GrammaticalItem(fields[i].item);
        assert PairedInForm(fields[i].name.chars) && SurrogatesInForm(fields[i].item.node);
        assert UniqueNames(m[i].value) && NestsWithin(m[i].value, n - 1) && FiniteNumbers(m[i].value, finite);
      }
      forall i, j | 0 <= i < j < |fields| ensures Units(fields[i].name.chars) != Units(fields[j].name.chars) {
        assert m[i].name != m[j].name;
      }
    }
    if fields != [] && 1 <= n && AdmissibleFields(fields, n - 1, {}, finite) {
      forall i | 0 <= i < |fields|
        ensures GrammaticalName(fields[i].name) && GrammaticalItem(fields[i].item)
        ensures PairedInForm(fields[i].name.chars) && SurrogatesInForm(fields[i].item.node)
        ensures UniqueNames(m[i].value) && NestsWithin(m[i].value, n - 1) && FiniteNumbers(m[i].value, finite)
      {
        assert AdmissibleField(fields[i], n - 1, finite);
      }
      assert DistinctNames(m);
    }
  }

  lemma ItemsCons(item: Item, more: seq<Item>, n: int, finite: Text -> bool, k: Text)
    ensures AdmissibleItems([item] + more, n, finite)
       <==> AdmissibleItem(item, n, finite) && AdmissibleItems(more, n, finite)
    ensures ItemsOnto([item] + more, k)
         == ItemOnto(item, if more == [] then k else [COMMA] + ItemsOnto(more, k))
  {
    var all := [item] + more;
    assert all[1..] == more;
    assert all[0] == item;
    forall i | 0 <= i < |more| ensures more[i] == all[1..][i] == all[i + 1] {}
    assert forall i | 1 <= i < |all| :: all[i] == more[i - 1];
  }

  lemma FieldsCons(f: Field, more: seq<Field>, n: int, seen: set<Text>, finite: Text -> bool, k: Text)
    ensures AdmissibleFields([f] + more, n, seen, finite)
       <==> AdmissibleField(f, n, finite) && Units(f.name.chars) !in seen
            && AdmissibleFields(more, n, seen + {Units(f.name.chars)}, finite)
    ensures FieldsOnto([f] + more, k)
         == FieldOnto(f, if more == [] then k else [COMMA] + FieldsOnto(more, k))
  {
    var all := [f] + more;
    assert all[1..] == more;
    assert all[0] == f;
    forall i | 0 <= i < |more| ensures more[i] == all[1..][i] == all[i + 1] {}
    assert forall i | 1 <= i < |all| :: all[i] == more[i - 1];
    if AdmissibleFields(all, n, seen, finite) {
      forall i | 0 <= i < |more| ensures Units(more[i].name.chars) != Units(f.name.chars) {
        assert Units(all[0].name.chars) != Units(all[i + 1].name.chars);
      }
    }
  }

  lemma CharsOntoAppend(a: seq<Char>, b: seq<Char>, k: Text)
    ensures CharsOnto(a + b, k) == CharsOnto(a, CharsOnto(b, k))
  {
    if a == [] {
      assert a + b == b;
    } else {
      assert (a + b)[1..] == a[1..] + b;
      CharsOntoAppend(a[1..], b, k);
    }
  }

  /** A pair written in one form, or a unit that is no surrogate, can be put in front. */
  lemma PairedInFormCons(head: seq<Char>, tail: seq<Char>)
    requires
      || (|head| == 1 && !IsHigh(Unit(head[0])) && !IsLow(Unit(head[0])))
      || (|head| == 2 && IsHigh(Unit(head[0])) && IsLow(Unit(head[1])) && head[0].Raw? == head[1].Raw?)
    ensures PairedInForm(head + tail) <==> PairedInForm(tail)
  {
    var all := head + tail;
    forall i | 0 <= i < |tail|
      ensures all[i + |head|] == tail[i]
      ensures PairedInForm(all) || PairedInForm(tail) ==> (PairedAt(all, i + |head|) <==> PairedAt(tail, i))
    {
      assert i + 1 < |tail| ==> all[i + |head| + 1] == tail[i + 1];
      assert PairedInForm(all) ==> PairedAt(all, i + |head| - 1);
    }
    if PairedInForm(tail) {
      forall i | 0 <= i < |all| ensures PairedAt(all, i) {
        assert i >= |head| ==> PairedAt(tail, i - |head|);
      }
    }
  }
}
