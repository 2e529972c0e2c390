/** The strict admission parser: one pass over the text with a position and a depth. */
module StrictJson {
  import opened JsonValues
  import opened Lines
  import opened Options
  import opened StrictJsonDerivation
  import opened StrictJsonGrammar
  import opened StrictJsonProofs
  import opened StrictJsonRepeats
  import opened StrictJsonRules
  import opened StrictJsonSoundness

  /** What a step returns or throws; `Invalid` names the repeated member when there is one. */
  datatype Outcome<+T> = Value(v: T) | Invalid(field: Option<Text>) {
    predicate IsFailure() { Invalid? }
    function PropagateFailure<U>(): Outcome<U> requires Invalid? { Invalid(field) }
    function Extract(): T requires Value? { v }
  }

  function MeaningOfItems(items: seq<Item>): seq<Json<Text>> {
    seq(|items|, i requires 0 <= i < |items| => Meaning(items[i].node))
  }

  function MeaningOfField(f: Field): Member<Text> {
    Member(Units(f.name.chars), Meaning(f.item.node))
  }

  function MeaningOfFields(fields: seq<Field>): seq<Member<Text>> {
    seq(|fields|, i requires 0 <= i < |fields| => MeaningOfField(fields[i]))
  }

  lemma MeaningOfMore(items: seq<Item>, item: Item, fields: seq<Field>, field: Field)
    ensures MeaningOfItems([]) == [] && MeaningOfFields([]) == []
    ensures MeaningOfItems(items + [item]) == MeaningOfItems(items) + [Meaning(item.node)]
    ensures MeaningOfFields(fields + [field]) == MeaningOfFields(fields) + [MeaningOfField(field)]
  {}

  const NO_ITEM := Item([], NullNode, [])
  const NO_FIELD := Field(Name([], [], []), NO_ITEM)

  class Parser {
    const text: Text
    const maxDepth: int
    /** Stands for `Number.isFinite(Number(lexeme))`. */
    const finite: Text -> bool
    var pos: nat
    var depth: int

    constructor (text: Text, maxDepth: int, finite: Text -> bool)
      ensures this.text == text && this.maxDepth == maxDepth && this.finite == finite
      ensures pos == 0 && depth == 0
    {
      this.text, this.maxDepth, this.finite := text, maxDepth, finite;
      pos, depth := 0, 0;
    }

    /** The step read `t` and stands after it, or threw what derivation `p` fails with. */
    ghost predicate Reads<T, V>(p: Parsed<T>, r: Outcome<V>, t: T)
      reads this
    {
      p == if r.Value? then Ok(t, pos) else Fail(r.field)
    }

    /** The same for a step whose value is not used. */
    ghost predicate Passes<T>(p: Parsed<T>, r: Outcome<()>)
      reads this
    {
      match p
      case Ok(_, e) => r == Value(()) && pos == e
      case Fail(field) => r == Invalid(field)
    }

    function Peek(): (c: int)
      reads this
      ensures c == UnitAt(text, pos)
    {
      if pos < |text| then text[pos] else -1
    }

    method Ws()
      requires pos <= |text|
      modifies this`pos
      ensures pos == WsEnd(text, old(pos))
    {
      ghost var start := pos;
      while true
        invariant pos <= |text| && WsEnd(text, pos) == WsEnd(text, start)
        decreases |text| - pos
      {
        var c := Peek();
        if c == 0x20 || c == 0x09 || c == 0x0a || c == 0x0d {
          pos := pos + 1;
        } else {
          return;
        }
      }
    }

    method Expect(code: CodeUnit) returns (r: Outcome<()>)
      modifies this`pos
      ensures r == if UnitAt(text, old(pos)) == code then Value(()) else Invalid(None)
      ensures r.Value? ==> pos == old(pos) + 1
    {
      if Peek() != code { return Invalid(None); }
      pos := pos + 1;
      return Value(());
    }

    method Enter() returns (r: Outcome<()>)
      modifies this`depth
      ensures depth == old(depth) + 1
      ensures r == if depth > maxDepth then Invalid(None) else Value(())
    {
      depth := depth + 1;
      if depth > maxDepth { return Invalid(None); }
      return Value(());
    }

    method Leave()
      modifies this`depth
      ensures depth == old(depth) - 1
    {
      depth := depth - 1;
    }

    method Literal(word: Text, value: Json<Text>, ghost node: Node) returns (r: Outcome<Json<Text>>)
      requires word != []
      modifies this`pos
      ensures Reads(ParseLiteral(text, old(pos), word, node), r, node)
      ensures r.Value? ==> r.v == value
    {
      if !StartsWith(text, pos, word) { return Invalid(None); }
      pos := pos + |word|;
      return Value(value);
    }

    // ---------- strings ----------

    method HexFour() returns (r: Outcome<CodeUnit>)
      modifies this`pos
      ensures r == if Hex4(text, old(pos)) then Value(Unit(HexChar(text, old(pos)))) else Invalid(None)
      ensures r.Value? ==> pos == old(pos) + 4
    {
      var v := 0;
      for i := 0 to 4
        invariant pos == old(pos) && (i > 0 ==> pos + i <= |text|)
        invariant forall j | pos <= j < pos + i :: HexValue(text[j]) >= 0
        invariant i == 0 ==> v == 0
        invariant i == 1 ==> v == HexValue(text[pos])
        invariant i == 2 ==> v == HexValue(text[pos]) * 16 + HexValue(text[pos + 1])
        invariant i == 3 ==>
            v == (HexValue(text[pos]) * 16 + HexValue(text[pos + 1])) * 16 + HexValue(text[pos + 2])
        invariant i == 4 ==> v == HexNumber(text[pos], text[pos + 1], text[pos + 2], text[pos + 3])
      {
        var c := UnitAt(text, pos + i);
        var d := if c == -1 then -1 else HexValue(c);
        if d < 0 { return Invalid(None); }
        v := v * 16 + d;
      }
      pos := pos + 4;
      return Value(v);
    }

    method Escape() returns (r: Outcome<Text>, ghost chars: seq<Char>)
      modifies this`pos
      ensures Reads(ParseEscape(text, old(pos)), r, chars)
      ensures r.Value? ==> r.v == Units(chars)
    {
      chars := [];
      var c := Peek();
      pos := pos + 1;
      if c == -1 {
        return Invalid(None), chars;
      } else if ShortEscape(c) >= 0 {
        return Value([ShortEscape(c)]), [Short(c)];
      } else if c == LOWER_U {
        var hi :- HexFour();
        ghost var h := HexChar(text, old(pos) + 1);
        if IsHigh(hi) {
          if UnitAt(text, pos) == BACKSLASH && UnitAt(text, pos + 1) == LOWER_U {
            pos := pos + 2;
            var lo :- HexFour();
            if IsLow(lo) {
              return Value([hi, lo]), [h, HexChar(text, old(pos) + 7)];
            }
            return Invalid(None), chars;
          }
          return Invalid(None), chars;
        }
        if IsLow(hi) { return Invalid(None), chars; }
        return Value([hi]), [h];
      } else {
        return Invalid(None), chars;
      }
    }

    /** Reads a string whose opening quotation mark is at `pos`. */
    method String() returns (r: Outcome<Text>, ghost chars: seq<Char>)
      requires pos < |text|
      modifies this`pos
      ensures Reads(ParseChars(text, old(pos) + 1), r, chars)
      ensures r.Value? ==> r.v == Units(chars)
    {
      hide ParseEscape, Units;
      pos := pos + 1;
      ghost var all := ParseChars(text, pos);
      var out: Text := [];
      var chunk: nat := pos;
      chars := [];
      PrependPrepend([], [], all);
      while true
        invariant chunk <= pos <= |text|
        invariant all == Prepend(chars, ParseChars(text, pos))
        invariant out + text[chunk..pos] == Units(chars)
        decreases |text| - pos
      {
        var c := Peek();
        if c == -1 { return Invalid(None), chars; }
        if c == QUOTE {
          out := out + text[chunk..pos];
          pos := pos + 1;
          assert chars + [] == chars;
          return Value(out), chars;
        }
        if c == BACKSLASH {
          out := out + text[chunk..pos];
          pos := pos + 1;
          var more, e :- Escape();
          out := out + more;
          chunk := pos;
          PrependPrepend(chars, e, ParseChars(text, pos));
          UnitsAppend(chars, e);
          chars := chars + e;
          continue;
        }
        ghost var start := pos;
        var _, head :- RawUnits(c);
        assert text[chunk..pos] == text[chunk..start] + text[start..pos];
        PrependPrepend(chars, head, ParseChars(text, pos));
        UnitsAppend(chars, head);
        chars := chars + head;
      }
    }

    /** Steps over one raw unit, or over a raw surrogate pair. */
    method RawUnits(c: CodeUnit) returns (r: Outcome<()>, ghost head: seq<Char>)
      requires pos < |text| && text[pos] == c && c != QUOTE && c != BACKSLASH
      modifies this`pos
      ensures Reads(ParseHead(text, old(pos)), r, head)
      ensures r.Value? ==> Units(head) == text[old(pos)..pos]
    {
      head := [];
      if c < 0x20 { return Invalid(None), head; }
      if 0xd800 <= c <= 0xdfff {
        var next := UnitAt(text, pos + 1);
        var paired := c <= 0xdbff && 0xdc00 <= next <= 0xdfff;
        if !paired { return Invalid(None), head; }
        pos := pos + 2;
        return Value(()), [Raw(c), Raw(next)];
      }
      pos := pos + 1;
      return Value(()), [Raw(c)];
    }

    // ---------- numbers ----------

    /** Steps over digits. */
    method Digits()
      requires pos <= |text|
      modifies this`pos
      ensures pos == DigitsEnd(text, old(pos))
    {
      ghost var start := pos;
      while 0x30 <= Peek() <= 0x39
        invariant pos <= |text| && DigitsEnd(text, pos) == DigitsEnd(text, start)
        decreases |text| - pos
      {
        pos := pos + 1;
      }
    }

    method WholePart() returns (r: Outcome<()>)
      modifies this`pos
      ensures Passes(ParseWhole(text, old(pos)), r)
    {
      var c := Peek();
      if c == ZERO {
        pos := pos + 1;
      } else if 0x31 <= c <= 0x39 {
        Digits();
      } else {
        return Invalid(None);
      }
      return Value(());
    }

    method FracPart() returns (r: Outcome<()>)
      requires pos <= |text|
      modifies this`pos
      ensures Passes(ParseFrac(text, old(pos)), r)
    {
      if Peek() == DOT {
        pos := pos + 1;
        if !(0x30 <= Peek() <= 0x39) { return Invalid(None); }
        Digits();
      }
      return Value(());
    }

    method ExpPart() returns (r: Outcome<()>)
      requires pos <= |text|
      modifies this`pos
      ensures Passes(ParseExp(text, old(pos)), r)
    {
      var e := Peek();
      if e == 0x65 || e == 0x45 {
        pos := pos + 1;
        var sign := Peek();
        if sign == PLUS || sign == MINUS { pos := pos + 1; }
        if !(0x30 <= Peek() <= 0x39) { return Invalid(None); }
        Digits();
      }
      return Value(());
    }

    method ScanNumeral() returns (r: Outcome<()>)
      modifies this`pos
      ensures Passes(ParseNumeral(text, old(pos)), r)
    {
      if Peek() == MINUS { pos := pos + 1; }
      var _ :- WholePart();
      var _ :- FracPart();
      var _ :- ExpPart();
      return Value(());
    }

    /** The number read, as its lexeme. */
    method NumberValue(ghost room: int) returns (r: Outcome<Json<Text>>, ghost node: Node)
      requires pos < |text| && (text[pos] == MINUS || IsDigit(text[pos]))
      modifies this`pos
      ensures Reads(ParseAny(text, old(pos), room, finite), r, node)
      ensures r.Value? ==> r.v == Meaning(node)
    {
      node := NullNode;
      var start := pos;
      var _ :- ScanNumeral();
      NumeralSlice(text, start);
      if !finite(text[start..pos]) { return Invalid(None), node; }
      return Value(Number(text[start..pos])), NumberNode(ParseNumeral(text, start).value);
    }

    // ---------- values ----------

    method Any() returns (r: Outcome<Json<Text>>, ghost node: Node)
      requires pos <= |text|
      modifies this
      ensures Reads(ParseAny(text, old(pos), maxDepth - old(depth), finite), r, node)
      ensures r.Value? ==> r.v == Meaning(node) && depth == old(depth)
      decreases |text| - pos, 0
    {
      var c := Peek();
      node := NullNode;
      if c == -1 {
        return Invalid(None), node;
      } else if c == LBRACE {
        r, node := ObjectValue();
      } else if c == LBRACKET {
        r, node := ArrayValue();
      } else if c == QUOTE {
        var out, chars :- String();
        return Value(Str(out)), StringNode(chars);
      } else if c == 0x74 {
        node := BoolNode(true);
        r := Literal(TRUE, Bool(true), node);
      } else if c == 0x66 {
        node := BoolNode(false);
        r := Literal(FALSE, Bool(false), node);
      } else if c == 0x6e {
        r := Literal(NULL, Null, node);
      } else if c == MINUS || 0x30 <= c <= 0x39 {
        r, node := NumberValue(maxDepth - depth);
      } else {
        return Invalid(None), node;
      }
    }

    method ArrayValue() returns (r: Outcome<Json<Text>>, ghost node: Node)
      requires pos < |text|
      modifies this
      ensures Reads(ParseArray(text, old(pos) + 1, maxDepth - old(depth) - 1, finite), r, node)
      ensures r.Value? ==> r.v == Meaning(node) && depth == old(depth)
      decreases |text| - pos - 1, 4
    {
      node := NullNode;
      pos := pos + 1;
      ghost var start := pos;
      var _ :- Enter();
      Ws();
      if Peek() == RBRACKET {
        node := EmptyArray(WsText(text, start));
        pos := pos + 1;
        Leave();
        return Value(Array([])), node;
      }
      var out, items :- Elements(start, ParseItems(text, start, maxDepth - depth, finite));
      Leave();
      return Value(Array(out)), ArrayNode(items);
    }

    /** The elements from `start` on and the closing bracket, which `all` derives; whitespace at
        `start` may have been stepped over. */
    method Elements(ghost start: nat, ghost all: Parsed<seq<Item>>)
      returns (r: Outcome<seq<Json<Text>>>, ghost items: seq<Item>)
      requires start <= pos <= |text| && WsEnd(text, pos) == WsEnd(text, start)
      requires all == ParseItems(text, start, maxDepth - depth, finite)
      modifies this
      ensures Reads(all, r, items)
      ensures r.Value? ==> r.v == MeaningOfItems(items) && depth == old(depth)
      decreases |text| - start, 3
    {
      ghost var room, p := maxDepth - depth, start;
      r, items := Value([]), [];
      MeaningOfMore([], NO_ITEM, [], NO_FIELD);
      PrependPrepend([], [], all);
      while true
        invariant start <= p <= pos <= |text| && WsEnd(text, pos) == WsEnd(text, p) && depth == old(depth)
        invariant all == Prepend(items, ParseItems(text, p, room, finite))
        invariant r == Value(MeaningOfItems(items))
        decreases |text| - p
      {
        var v, item :- Element(p);
        MeaningOfMore(items, item, [], NO_FIELD);
        ghost var before := items;
        items := items + [item];
        r := Value(r.v + [v]);
        var c := Peek();
        if c == COMMA {
          pos := pos + 1;
          p := pos;
          PrependPrepend(before, [item], ParseItems(text, p, room, finite));
        } else if c == RBRACKET {
          pos := pos + 1;
          return;
        } else {
          return Invalid(None), items;
        }
      }
    }

    /** One element with the whitespace around it, which begins at `p`. */
    method Element(ghost p: nat) returns (r: Outcome<Json<Text>>, ghost item: Item)
      requires p <= pos <= |text| && WsEnd(text, pos) == WsEnd(text, p)
      modifies this
      ensures Reads(ParseItem(text, p, maxDepth - old(depth), finite), r, item)
      ensures r.Value? ==> r.v == Meaning(item.node) && depth == old(depth)
      decreases |text| - p, 2
    {
      item := NO_ITEM;
      Ws();
      var v, node :- Any();
      ghost var e := pos;
      Ws();
      return Value(v), Item(WsText(text, p), node, WsText(text, e));
    }

    method ObjectValue() returns (r: Outcome<Json<Text>>, ghost node: Node)
      requires pos < |text|
      modifies this
      ensures Reads(ParseObject(text, old(pos) + 1, maxDepth - old(depth) - 1, finite), r, node)
      ensures r.Value? ==> r.v == Meaning(node) && depth == old(depth)
      decreases |text| - pos - 1, 4
    {
      hide ParseFields, WsText;
      node := NullNode;
      pos := pos + 1;
      ghost var start := pos;
      var _ :- Enter();
      Ws();
      if Peek() == RBRACE {
        node := EmptyObject(WsText(text, start));
        pos := pos + 1;
        Leave();
        return Value(Object([])), node;
      }
      var out, fields :- Entries(start, ParseFields(text, start, maxDepth - depth, {}, finite));
      Leave();
      return Value(Object(out)), ObjectNode(fields);
    }

    /** The members from `start` on and the closing brace, which `all` derives; whitespace at
        `start` may have been stepped over. */
    method Entries(ghost start: nat, ghost all: Parsed<seq<Field>>)
      returns (r: Outcome<seq<Member<Text>>>, ghost fields: seq<Field>)
      requires start <= pos <= |text| && WsEnd(text, pos) == WsEnd(text, start)
      requires all == ParseFields(text, start, maxDepth - depth, {}, finite)
      modifies this
      ensures Reads(all, r, fields)
      ensures r.Value? ==> r.v == MeaningOfFields(fields) && depth == old(depth)
      decreases |text| - start, 3
    {
      hide ParseField, MeaningOfFields, Units;
      ghost var room, p := maxDepth - depth, start;
      var seen: set<Text> := {};
      r, fields := Value([]), [];
      MeaningOfMore([], NO_ITEM, [], NO_FIELD);
      PrependPrepend([], [], all);
      while true
        invariant start <= p <= pos <= |text| && WsEnd(text, pos) == WsEnd(text, p) && depth == old(depth)
        invariant all == Prepend(fields, ParseFields(text, p, room, seen, finite))
        invariant r == Value(MeaningOfFields(fields))
        decreases |text| - p
      {
        var member, field :- Entry(seen, p);
        MeaningOfMore([], NO_ITEM, fields, field);
        seen := seen + {member.name};
        ghost var before := fields;
        fields := fields + [field];
        r := Value(r.v + [member]);
        var c := Peek();
        if c == COMMA {
          pos := pos + 1;
          p := pos;
          PrependPrepend(before, [field], ParseFields(text, p, room, seen, finite));
        } else if c == RBRACE {
          pos := pos + 1;
          return;
        } else {
          return Invalid(None), fields;
        }
      }
    }

    /** One member with the whitespace around it, which begins at `p`. */
    method Entry(seen: set<Text>, ghost p: nat) returns (r: Outcome<Member<Text>>, ghost field: Field)
      requires p <= pos <= |text| && WsEnd(text, pos) == WsEnd(text, p)
      modifies this
      ensures Reads(ParseField(text, p, maxDepth - old(depth), seen, finite), r, field)
      ensures r.Value? ==> r.v == MeaningOfField(field) && depth == old(depth)
      decreases |text| - p, 2
    {
      field := NO_FIELD;
      var key, name :- Key(seen, p);
      var _ :- Expect(COLON);
      ghost var q := pos;
      var v, item :- Element(q);
      return Value(Member(key, v)), Field(name, item);
    }

    /** A member's name, which must be new, with the whitespace around it. */
    method Key(seen: set<Text>, ghost p: nat) returns (r: Outcome<Text>, ghost name: Name)
      requires p <= pos <= |text| && WsEnd(text, pos) == WsEnd(text, p)
      modifies this`pos
      ensures Reads(ParseName(text, p, seen), r, name)
      ensures r.Value? ==> r.v == Units(name.chars)
    {
      name := NO_FIELD.name;
      Ws();
      if Peek() != QUOTE { return Invalid(None), name; }
      var key, chars :- String();
      if key in seen { return Invalid(Some(key)), name; }
      ghost var e := pos;
      Ws();
      return Value(key), Name(WsText(text, p), chars, WsText(text, e));
    }

    /** A whole text. */
    method Document() returns (r: Outcome<Json<Text>>, ghost d: Item)
      requires pos == 0 && depth == 0
      modifies this
      ensures Reads(ParseDocument(text, maxDepth, finite), r, d)
      ensures r.Value? ==> r.v == Meaning(d.node) && pos == |text| && depth == 0
    {
      d := NO_ITEM;
      var v;
      v, d :- Element(0);
      if pos != |text| { return Invalid(None), d; }
      return Value(v), d;
    }
  }

  /** A request body: bytes with what a fatal UTF-8 decoder makes of them, or a string. */
  datatype Body = Bytes(bytes: seq<Byte>, decoded: Option<Text>) | String(text: Text)

  /** The text to parse: strict UTF-8, with no byte-order mark before or after decoding. */
  function DecodeStrict(body: Body): (r: Outcome<Text>)
    ensures r.Value? && body.Bytes? ==> body.decoded == Some(r.v)
    ensures r.Value? ==> UnitAt(r.v, 0) != 0xfeff
    ensures body.String? && r.Invalid? ==> UnitAt(body.text, 0) == 0xfeff
  {
    var text :-
      if body.String? then Value(body.text)
      else if [0xef, 0xbb, 0xbf] <= body.bytes then Invalid(None)
      else if body.decoded.Some? then Value(body.decoded.value)
      else Invalid(None);
    if text != [] && text[0] == 0xfeff then Invalid(None) else Value(text)
  }

  /** The text a body stands for: the string, or what strict UTF-8 makes of bytes that do not begin with the
      encoded mark; it does not begin with the mark itself. */
  ghost predicate StandsFor(body: Body, t: Text) {
    && (body.String? ==> t == body.text)
    && (body.Bytes? ==> body.decoded == Some(t))
    && (body.Bytes? && |body.bytes| >= 3 ==> body.bytes[0] != 239 || body.bytes[1] != 187 || body.bytes[2] != 191)
    && (|t| >= 1 ==> t[0] != 65279)
  }

  /** A reading of the body that meets every rule. */
  ghost predicate Acceptable(body: Body, maxDepth: int, requireObject: bool, finite: Text -> bool, d: Item) {
    && StandsFor(body, PrintDocument(d)) && AdmissibleItem(d, maxDepth, finite)
    && (requireObject ==> Meaning(d.node).Object?)
  }

  /** A reading of the body that breaks no rule but that on names. */
  ghost predicate Repeating(body: Body, maxDepth: int, finite: Text -> bool, d: Item) {
    StandsFor(body, PrintDocument(d)) && OtherwiseItem(d, maxDepth, finite) && !UniqueNames(Meaning(d.node))
  }

  lemma DecodedIff(body: Body, t: Text)
    ensures DecodeStrict(body) == Value(t) <==> StandsFor(body, t)
  {
    if body.Bytes? {
      assert [0xef, 0xbb, 0xbf] <= body.bytes
         <==> |body.bytes| >= 3 && body.bytes[0] == 239 && body.bytes[1] == 187 && body.bytes[2] == 191 by {
        if |body.bytes| >= 3 && body.bytes[0] == 239 && body.bytes[1] == 187 && body.bytes[2] == 191 {
          assert body.bytes[..3] == [0xef, 0xbb, 0xbf];
        }
      }
    }
  }

  /** Parses a body under the strict wire rules: the answer is the value of the acceptable reading if there is
      one, and a refusal otherwise, which names the first repeated name when that is all that is wrong. */
  method ParseStrictJson(body: Body, maxDepth: int, requireObject: bool, finite: Text -> bool)
    returns (r: Outcome<Json<Text>>)
    ensures forall d: Item :: Acceptable(body, maxDepth, requireObject, finite, d) ==> r == Value(Meaning(d.node))
    ensures r.Value? ==> exists d: Item :: Acceptable(body, maxDepth, requireObject, finite, d)
    ensures forall d: Item :: Repeating(body, maxDepth, finite, d) ==> r == Invalid(FirstRepeat(d.node))
  {
    hide StandsFor, AdmissibleItem, OtherwiseItem, UniqueNames, FirstRepeat, PrintDocument, ParseDocument, DecodeStrict;
    forall t: Text ensures DecodeStrict(body) == Value(t) <==> StandsFor(body, t) { DecodedIff(body, t); }
    var text :- DecodeStrict(body);
    var parser := new Parser(text, maxDepth, finite);
    forall d: Item
      ensures ParseDocument(text, maxDepth, finite) == Ok(d, |text|)
         <==> PrintDocument(d) == text && AdmissibleItem(d, maxDepth, finite)
    {
      ParsesExactly(text, maxDepth, finite, d);
    }
    forall d: Item | Repeating(body, maxDepth, finite, d)
      ensures ParseDocument(text, maxDepth, finite) == Fail(FirstRepeat(d.node))
    {
      RepeatReported(d, maxDepth, finite);
    }
    var value;
    ghost var d;
    value, d :- parser.Document();
    if requireObject && !value.Object? { return Invalid(None); }
    assert Acceptable(body, maxDepth, requireObject, finite, d);
    return Value(value);
  }
}
