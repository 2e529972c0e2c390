/** The member name that a refusal for a repeated name reports. */
module StrictJsonRepeats {
  import opened JsonValues
  import opened Options
  import opened StrictJsonCompleteness
  import opened StrictJsonDerivation
  import opened StrictJsonGrammar
  import opened StrictJsonRules
  import opened StrictJsonSoundness

  /** The first name, in reading order, that its object has had before. */
  function FirstRepeat(node: Node): Option<Text>
    decreases node, 0
  {
    match node
    case ArrayNode(items) => FirstInItems(items)
    case ObjectNode(fields) => FirstInFields(fields, {})
    case _ => None
  }

  function FirstInItems(items: seq<Item>): Option<Text>
    decreases items, 1
  {
    if items == [] then None
    else
      var r := FirstRepeat(items[0].node);
      if r.Some? then r else FirstInItems(items[1..])
  }

  function FirstInField(f: Field): Option<Text>
    decreases f, 1
  {
    FirstRepeat(f.item.node)
  }

  function FirstInFields(fields: seq<Field>, seen: set<Text>): Option<Text>
    decreases fields, 1
  {
    if fields == [] then None
    else
      var k, r := Units(fields[0].name.chars), FirstInField(fields[0]);
      if k in seen then Some(k) else if r.Some? then r else FirstInFields(fields[1..], seen + {k})
  }

  /** All the wire rules but that on names. */
  ghost predicate Otherwise(node: Node, n: int, finite: Text -> bool) {
    && Grammatical(node) && SurrogatesInForm(node)
    && NestsWithin(Meaning(node), n) && FiniteNumbers(Meaning(node), finite)
  }

  ghost predicate OtherwiseItem(item: Item, n: int, finite: Text -> bool) {
    AllWs(item.before) && Otherwise(item.node, n, finite) && AllWs(item.after)
  }

  ghost predicate OtherwiseField(f: Field, n: int, finite: Text -> bool) {
    GrammaticalName(f.name) && PairedInForm(f.name.chars) && OtherwiseItem(f.item, n, finite)
  }

  lemma ArrayParts(items: seq<Item>, n: int, finite: Text -> bool)
    requires Otherwise(ArrayNode(items), n, finite)
    ensures items != [] && 1 <= n && forall i | 0 <= i < |items| :: OtherwiseItem(items[i], n - 1, finite)
  {
    var v := Meaning(ArrayNode(items));
    forall i | 0 <= i < |items| ensures OtherwiseItem(items[i], n - 1, finite) {
      assert v.items[i] == Meaning(items[i].node);
      assert GrammaticalItem(items[i]) && SurrogatesInForm(items[i].node);
      assert NestsWithin(v.items[i], n - 1) && FiniteNumbers(v.items[i], finite);
    }
  }

  lemma ObjectParts(fields: seq<Field>, n: int, finite: Text -> bool)
    requires Otherwise(ObjectNode(fields), n, finite)
    ensures fields != [] && 1 <= n && forall i | 0 <= i < |fields| :: OtherwiseField(fields[i], n - 1, finite)
  {
    var m := Meaning(ObjectNode(fields)).members;
    forall i | 0 <= i < |fields| ensures OtherwiseField(fields[i], n - 1, finite) {
      assert m[i].value == Meaning(fields[i].item.node);
      assert GrammaticalName(fields[i].name) && GrammaticalItem(fields[i].item);
      assert PairedInForm(fields[i].name.chars) && SurrogatesInForm(fields[i].item.node);
      assert NestsWithin(m[i].value, n - 1) && FiniteNumbers(m[i].value, finite);
    }
  }

  // ---------- no repeat, and only then, means unique names ----------

  lemma {:induction false} NoRepeat(node: Node)
    ensures FirstRepeat(node).None? <==> UniqueNames(Meaning(node))
    decreases node, 0
  {
    match node {
      case ArrayNode(items) =>
        NoRepeatItems(items);
        assert forall i | 0 <= i < |items| :: Meaning(node).items[i] == Meaning(items[i].node);
      case ObjectNode(fields) =>
        NoRepeatFields(fields, {});
        var m := Meaning(node).members;
        assert forall i | 0 <= i < |fields| ::
            m[i].name == Units(fields[i].name.chars) && m[i].value == Meaning(fields[i].item.node);
        if UniqueNames(Meaning(node)) {
          forall i, j | 0 <= i < j < |fields| ensures Units(fields[i].name.chars) != Units(fields[j].name.chars) {
            assert m[i].name != m[j].name;
          }
          forall i | 0 <= i < |fields| ensures UniqueNames(Meaning(fields[i].item.node)) {
            assert UniqueNames(m[i].value);
          }
        }
      case _ =>
    }
  }

  lemma {:induction false} NoRepeatItems(items: seq<Item>)
    ensures FirstInItems(items).None? <==> forall i | 0 <= i < |items| :: UniqueNames(Meaning(items[i].node))
    decreases items, 1
  {
    if items != [] {
      NoRepeat(items[0].node);
      NoRepeatItems(items[1..]);
      assert forall i | 1 <= i < |items| :: items[i] == items[1..][i - 1];
    }
  }

  /** The names are new and different, and the values have unique names. */
  ghost predicate AllNew(fields: seq<Field>, seen: set<Text>) {
    && (forall i | 0 <= i < |fields| :: Units(fields[i].name.chars) !in seen)
    && (forall i, j | 0 <= i < j < |fields| :: Units(fields[i].name.chars) != Units(fields[j].name.chars))
    && forall i | 0 <= i < |fields| :: UniqueNames(Meaning(fields[i].item.node))
  }

  lemma {:induction false} NoRepeatFields(fields: seq<Field>, seen: set<Text>)
    ensures FirstInFields(fields, seen).None? <==> AllNew(fields, seen)
    decreases fields, 1
  {
    if fields != [] {
      var k := Units(fields[0].name.chars);
      NoRepeatField(fields[0]);
      NoRepeatFields(fields[1..], seen + {k});
      AllNewRest(fields, seen);
    }
  }

  lemma {:induction false} NoRepeatField(f: Field)
    ensures FirstInField(f).None? <==> UniqueNames(Meaning(f.item.node))
    decreases f, 1
  {
    NoRepeat(f.item.node);
  }

  lemma AllNewRest(fields: seq<Field>, seen: set<Text>)
    requires fields != []
    ensures var k := Units(fields[0].name.chars);
            AllNew(fields, seen)
            <==> k !in seen && UniqueNames(Meaning(fields[0].item.node)) && AllNew(fields[1..], seen + {k})
  {
    var k, rest := Units(fields[0].name.chars), fields[1..];
    hide UniqueNames, Meaning;
    forall i | 0 <= i < |rest| ensures rest[i] == fields[i + 1] {}
    assert forall i | 1 <= i < |fields| :: fields[i] == rest[i - 1];
    if AllNew(fields, seen) {
      forall i | 0 <= i < |rest| ensures Units(rest[i].name.chars) !in seen + {k} {
        assert Units(fields[0].name.chars) != Units(fields[i + 1].name.chars);
      }
    }
  }

  // ---------- the repeat stops the descent ----------

  lemma {:induction false} RepeatStops(t: Text, i: nat, node: Node, k: Text, room: int, finite: Text -> bool)
    requires i <= |t| && From(t, i) == Onto(node, k)
    requires Otherwise(node, room, finite) && FirstRepeat(node).Some?
    ensures ParseAny(t, i, room, finite) == Fail(FirstRepeat(node))
    decreases node, 0
  {
    hide From, ItemsOnto, FieldsOnto, ParseItems, ParseFields, WsEnd, WsText, Otherwise;
    match node {
      case ArrayNode(items) =>
        Step(t, i, LBRACKET, ItemsOnto(items, [RBRACKET] + k));
        ArrayParts(items, room, finite);
        RepeatStopsItems(t, i + 1, items, k, room - 1, finite);
      case ObjectNode(fields) =>
        Step(t, i, LBRACE, FieldsOnto(fields, [RBRACE] + k));
        ObjectParts(fields, room, finite);
        RepeatStopsFields(t, i + 1, fields, k, room - 1, {}, finite);
    }
  }

  lemma IsAdmissible(item: Item, room: int, finite: Text -> bool)
    requires OtherwiseItem(item, room, finite) && FirstRepeat(item.node).None?
    ensures AdmissibleItem(item, room, finite)
  {
    NoRepeat(item.node);
  }

  lemma {:induction false} RepeatStopsItem(t: Text, i: nat, item: Item, tail: Text, room: int, finite: Text -> bool)
    requires i <= |t| && From(t, i) == ItemOnto(item, tail)
    requires OtherwiseItem(item, room, finite) && FirstRepeat(item.node).Some?
    ensures ParseItem(t, i, room, finite) == Fail(FirstRepeat(item.node))
    ensures UnitAt(t, WsEnd(t, i)) != RBRACKET
    decreases item, 0
  {
    hide From, Onto, Grammatical, SurrogatesInForm, FiniteNumbers, Meaning, ParseAny, WsEnd, WsText, FirstRepeat;
    var rest := item.after + tail;
    var v := Onto(item.node, rest);
    FirstUnit(item.node, rest);
    WsExact(t, i, item.before, v);
    Step(t, i + |item.before|, v[0], v[1..]);
    RepeatStops(t, i + |item.before|, item.node, rest, room, finite);
  }

  lemma {:induction false} RepeatStopsItems(t: Text, i: nat, items: seq<Item>, k: Text, room: int,
                                            finite: Text -> bool)
    requires i <= |t| && From(t, i) == ItemsOnto(items, [RBRACKET] + k)
    requires forall j | 0 <= j < |items| :: OtherwiseItem(items[j], room, finite)
    requires FirstInItems(items).Some?
    ensures ParseItems(t, i, room, finite) == Fail(FirstInItems(items))
    ensures UnitAt(t, WsEnd(t, i)) != RBRACKET
    decreases items, 1
  {
    hide From, ItemOnto, ItemsOnto, OtherwiseItem, AdmissibleItem, ParseItem, WsEnd, FirstRepeat;
    var item, more := items[0], items[1..];
    assert items == [item] + more;
    var tail := if more == [] then [RBRACKET] + k else [COMMA] + ItemsOnto(more, [RBRACKET] + k);
    ItemsCons(item, more, room, finite, [RBRACKET] + k);
    if FirstRepeat(item.node).Some? {
      RepeatStopsItem(t, i, item, tail, room, finite);
    } else {
      IsAdmissible(item, room, finite);
      CompleteItem(t, i, item, tail, room, finite);
      var e := At(t, tail);
      Step(t, e, COMMA, ItemsOnto(more, [RBRACKET] + k));
      RepeatStopsItems(t, e + 1, more, k, room, finite);
    }
  }

  lemma {:induction false} RepeatStopsFields(t: Text, i: nat, fields: seq<Field>, k: Text, room: int, seen: set<Text>,
                                             finite: Text -> bool)
    requires i <= |t| && From(t, i) == FieldsOnto(fields, [RBRACE] + k)
    requires forall j | 0 <= j < |fields| :: OtherwiseField(fields[j], room, finite)
    requires FirstInFields(fields, seen).Some?
    ensures ParseFields(t, i, room, seen, finite) == Fail(FirstInFields(fields, seen))
    ensures UnitAt(t, WsEnd(t, i)) != RBRACE
    decreases fields, 1
  {
    hide From, FieldOnto, FieldsOnto, OtherwiseField, AdmissibleField, ParseField, WsEnd, FirstRepeat;
    var f, more := fields[0], fields[1..];
    assert fields == [f] + more;
    var tail := if more == [] then [RBRACE] + k else [COMMA] + FieldsOnto(more, [RBRACE] + k);
    FieldsCons(f, more, room, seen, finite, [RBRACE] + k);
    if Units(f.name.chars) in seen || FirstRepeat(f.item.node).Some? {
      RepeatStopsField(t, i, f, tail, room, seen, finite);
    } else {
      FieldIsAdmissible(f, room, finite);
      CompleteField(t, i, f, tail, room, seen, finite);
      var e := At(t, tail);
      Step(t, e, COMMA, FieldsOnto(more, [RBRACE] + k));
      RepeatStopsFields(t, e + 1, more, k, room, seen + {Units(f.name.chars)}, finite);
    }
  }

  lemma FieldIsAdmissible(f: Field, room: int, finite: Text -> bool)
    requires OtherwiseField(f, room, finite) && FirstRepeat(f.item.node).None?
    ensures AdmissibleField(f, room, finite)
  {
    IsAdmissible(f.item, room, finite);
  }

  lemma {:induction false} RepeatStopsField(t: Text, i: nat, f: Field, tail: Text, room: int, seen: set<Text>,
                                            finite: Text -> bool)
    requires i <= |t| && From(t, i) == FieldOnto(f, tail)
    requires OtherwiseField(f, room, finite)
    requires Units(f.name.chars) in seen || FirstRepeat(f.item.node).Some?
    ensures ParseField(t, i, room, seen, finite)
         == Fail(if Units(f.name.chars) in seen then Some(Units(f.name.chars)) else FirstRepeat(f.item.node))
    ensures UnitAt(t, WsEnd(t, i)) != RBRACE
    decreases f, 0
  {
    hide From, ItemOnto, NameOnto, ParseItem, WsEnd, FirstRepeat;
    var v := ItemOnto(f.item, tail);
    if Units(f.name.chars) in seen {
      RepeatedName(t, i, f.name, [COLON] + v, seen);
    } else {
      CompleteName(t, i, f.name, [COLON] + v, seen);
      Step(t, At(t, [COLON] + v), COLON, v);
      RepeatStopsItem(t, At(t, v), f.item, tail, room, finite);
    }
  }

  lemma RepeatedName(t: Text, i: nat, n: Name, k: Text, seen: set<Text>)
    requires i <= |t| && From(t, i) == NameOnto(n, k)
    requires GrammaticalName(n) && PairedInForm(n.chars) && Units(n.chars) in seen
    requires k != [] && !IsWs(k[0])
    ensures ParseName(t, i, seen) == Fail(Some(Units(n.chars)))
    ensures UnitAt(t, WsEnd(t, i)) == QUOTE
  {
    hide From, GrammaticalChars, PairedInForm, CharsOnto, ParseChars, WsEnd, WsText, Units;
    var r := n.after + k;
    WsExact(t, i, n.before, StringOnto(n.chars, r));
    Step(t, i + |n.before|, QUOTE, CharsOnto(n.chars, [QUOTE] + r));
    CompleteChars(t, i + |n.before| + 1, n.chars, r);
  }

  /** A text that meets every rule but that on names is refused with the first repeated name. */
  lemma RepeatReported(d: Item, maxDepth: int, finite: Text -> bool)
    requires OtherwiseItem(d, maxDepth, finite) && !UniqueNames(Meaning(d.node))
    ensures FirstRepeat(d.node).Some?
    ensures ParseDocument(PrintDocument(d), maxDepth, finite) == Fail(FirstRepeat(d.node))
  {
    var t := PrintDocument(d);
    NoRepeat(d.node);
    FromSlice(t, 0, |t|);
    assert From(t, 0) == t;
    RepeatStopsItem(t, 0, d, [], maxDepth, finite);
  }
}
