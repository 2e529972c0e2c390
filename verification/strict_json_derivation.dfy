/**
 The derivation the strict parser finds at a position of a text. `Parser` is proved to compute
 exactly these functions; `StrictJsonProofs` proves that they find a tree of the grammar
 whenever one that meets the wire rules exists, and no other.
 */
module StrictJsonDerivation {
  import opened Options
  import opened StrictJsonGrammar

  /** What was read and where it ends. `Fail` carries the repeated member name when that is the
      reason. */
  datatype Parsed<+T> = Ok(value: T, end: nat) | Fail(field: Option<Text>) {
    predicate IsFailure() { Fail? }
    function PropagateFailure<U>(): Parsed<U> requires Fail? { Fail(field) }
    function Extract(): (T, nat) requires Ok? { (value, end) }
  }

  /** The unit at `i`, or -1 past the end. */
  function UnitAt(t: Text, i: nat): int {
    if i < |t| then t[i] else -1
  }

  /** The text from `i` on. */
  function From(t: Text, i: nat): (s: Text)
    requires i <= |t|
    ensures |s| == |t| - i
    decreases |t| - i
  {
    if i == |t| then [] else [t[i]] + From(t, i + 1)
  }

  /** Where the whitespace at `i` ends. */
  function WsEnd(t: Text, i: nat): (e: nat)
    requires i <= |t|
    ensures i <= e <= |t| && (e < |t| ==> !IsWs(t[e]))
    decreases |t| - i
  {
    if i < |t| && IsWs(t[i]) then WsEnd(t, i + 1) else i
  }

  /** The whitespace at `i`. */
  function WsText(t: Text, i: nat): (w: Text)
    requires i <= |t|
    ensures |w| == WsEnd(t, i) - i
    decreases |t| - i
  {
    if i < |t| && IsWs(t[i]) then [t[i]] + WsText(t, i + 1) else []
  }

  /** Where the digits at `i` end. */
  function DigitsEnd(t: Text, i: nat): (e: nat)
    requires i <= |t|
    ensures i <= e <= |t| && (e < |t| ==> !IsDigit(t[e]))
    decreases |t| - i
  {
    if i < |t| && IsDigit(t[i]) then DigitsEnd(t, i + 1) else i
  }

  /** The digits at `i`. */
  function DigitsText(t: Text, i: nat): (d: Text)
    requires i <= |t|
    ensures |d| == DigitsEnd(t, i) - i
    decreases |t| - i
  {
    if i < |t| && IsDigit(t[i]) then [t[i]] + DigitsText(t, i + 1) else []
  }

  /** A four-digit hexadecimal number at `i`. */
  predicate Hex4(t: Text, i: nat) {
    i + 4 <= |t| && GrammaticalChar(Unicode(t[i], t[i + 1], t[i + 2], t[i + 3]))
  }

  function HexChar(t: Text, i: nat): Char
    requires Hex4(t, i)
  {
    Unicode(t[i], t[i + 1], t[i + 2], t[i + 3])
  }

  /** The characters an escape stands for; `i` is after the reverse solidus. Two characters are
      returned for an escaped surrogate pair. */
  function ParseEscape(t: Text, i: nat): (p: Parsed<seq<Char>>)
    ensures p.Ok? ==> i < p.end <= |t|
  {
    if i >= |t| then Fail(None)
    else if ShortEscape(t[i]) >= 0 then Ok([Short(t[i])], i + 1)
    else if t[i] != LOWER_U || !Hex4(t, i + 1) then Fail(None)
    else
      var hi := HexChar(t, i + 1);
      if IsHigh(Unit(hi)) then
        if UnitAt(t, i + 5) == BACKSLASH && UnitAt(t, i + 6) == LOWER_U && Hex4(t, i + 7)
           && IsLow(Unit(HexChar(t, i + 7)))
        then Ok([hi, HexChar(t, i + 7)], i + 11)
        else Fail(None)
      else if IsLow(Unit(hi)) then Fail(None)
      else Ok([hi], i + 5)
  }

  function Prepend<T>(done: seq<T>, p: Parsed<seq<T>>): Parsed<seq<T>> {
    if p.Ok? then Ok(done + p.value, p.end) else p
  }

  lemma PrependPrepend<T>(a: seq<T>, b: seq<T>, p: Parsed<seq<T>>)
    ensures Prepend(a, Prepend(b, p)) == Prepend(a + b, p)
    ensures Prepend([], p) == p
  {
    assert p.Ok? ==> a + (b + p.value) == (a + b) + p.value && [] + p.value == p.value;
  }

  /** One character, or a surrogate pair written in one form. */
  function ParseHead(t: Text, i: nat): (p: Parsed<seq<Char>>)
    ensures p.Ok? ==> i < p.end <= |t|
  {
    if i >= |t| then Fail(None)
    else if t[i] == BACKSLASH then ParseEscape(t, i + 1)
    else if t[i] < 0x20 then Fail(None)
    else if IsHigh(t[i]) || IsLow(t[i]) then
      if IsHigh(t[i]) && i + 1 < |t| && IsLow(t[i + 1]) then Ok([Raw(t[i]), Raw(t[i + 1])], i + 2)
      else Fail(None)
    else Ok([Raw(t[i])], i + 1)
  }

  /** The characters up to the closing quotation mark; `i` is after the opening one. */
  function ParseChars(t: Text, i: nat): (p: Parsed<seq<Char>>)
    ensures p.Ok? ==> i < p.end <= |t|
    decreases |t| - i
  {
    if i < |t| && t[i] == QUOTE then Ok([], i + 1)
    else
      var (head, e) :- ParseHead(t, i);
      Prepend(head, ParseChars(t, e))
  }

  function ParseWhole(t: Text, i: nat): (p: Parsed<Text>)
    ensures p.Ok? ==> i < p.end <= |t|
  {
    if i >= |t| || !IsDigit(t[i]) then Fail(None)
    else if t[i] == ZERO then Ok([ZERO], i + 1)
    else Ok(DigitsText(t, i), DigitsEnd(t, i))
  }

  function ParseFrac(t: Text, i: nat): (p: Parsed<Option<Text>>)
    requires i <= |t|
    ensures p.Ok? ==> i <= p.end <= |t|
  {
    if UnitAt(t, i) != DOT then Ok(None, i)
    else
      var e := DigitsEnd(t, i + 1);
      if e == i + 1 then Fail(None) else Ok(Some(DigitsText(t, i + 1)), e)
  }

  function ParseExp(t: Text, i: nat): (p: Parsed<Option<Exponent>>)
    requires i <= |t|
    ensures p.Ok? ==> i <= p.end <= |t|
  {
    if i == |t| || !IsExp(t[i]) then Ok(None, i)
    else
      var signed := UnitAt(t, i + 1) == PLUS || UnitAt(t, i + 1) == MINUS;
      var d := if signed then i + 2 else i + 1;
      var e := DigitsEnd(t, d);
      if e == d then Fail(None)
      else Ok(Some(Exponent(t[i], if signed then Some(t[i + 1]) else None, DigitsText(t, d))), e)
  }

  function ParseNumeral(t: Text, i: nat): (p: Parsed<Numeral>)
    ensures p.Ok? ==> i < p.end <= |t|
  {
    var minus := UnitAt(t, i) == MINUS;
    var (whole, e1) :- ParseWhole(t, if minus then i + 1 else i);
    var (frac, e2) :- ParseFrac(t, e1);
    var (exp, e3) :- ParseExp(t, e2);
    Ok(Numeral(minus, whole, frac, exp), e3)
  }

  /** Whether `word` stands at `i`. */
  predicate StartsWith(t: Text, i: nat, word: Text)
    decreases |word|
  {
    i + |word| <= |t| && (word == [] || (t[i] == word[0] && StartsWith(t, i + 1, word[1..])))
  }

  function ParseLiteral(t: Text, i: nat, word: Text, node: Node): (p: Parsed<Node>)
    requires word != []
    ensures p.Ok? ==> i < p.end <= |t|
  {
    if StartsWith(t, i, word) then Ok(node, i + |word|) else Fail(None)
  }

  /** One value at `i`. `room` is how many more containers may be opened. */
  function ParseAny(t: Text, i: nat, room: int, finite: Text -> bool): (p: Parsed<Node>)
    requires i <= |t|
    ensures p.Ok? ==> i < p.end <= |t|
    decreases |t| - i, 0
  {
    if i == |t| then Fail(None)
    else if t[i] == LBRACE then ParseObject(t, i + 1, room - 1, finite)
    else if t[i] == LBRACKET then ParseArray(t, i + 1, room - 1, finite)
    else if t[i] == QUOTE then
      var (chars, e) :- ParseChars(t, i + 1);
      Ok(StringNode(chars), e)
    else if t[i] == TRUE[0] then ParseLiteral(t, i, TRUE, BoolNode(true))
    else if t[i] == FALSE[0] then ParseLiteral(t, i, FALSE, BoolNode(false))
    else if t[i] == NULL[0] then ParseLiteral(t, i, NULL, NullNode)
    else if t[i] == MINUS || IsDigit(t[i]) then
      var (n, e) :- ParseNumeral(t, i);
      if finite(PrintNumeral(n)) then Ok(NumberNode(n), e) else Fail(None)
    else Fail(None)
  }

  /** The rest of an array; `i` is after the opening bracket. */
  function ParseArray(t: Text, i: nat, room: int, finite: Text -> bool): (p: Parsed<Node>)
    requires i <= |t|
    ensures p.Ok? ==> i < p.end <= |t|
    decreases |t| - i, 3
  {
    var w := WsEnd(t, i);
    if room < 0 then Fail(None)
    else if UnitAt(t, w) == RBRACKET then Ok(EmptyArray(WsText(t, i)), w + 1)
    else
      var (items, e) :- ParseItems(t, i, room, finite);
      Ok(ArrayNode(items), e)
  }

  function ParseItems(t: Text, i: nat, room: int, finite: Text -> bool): (p: Parsed<seq<Item>>)
    requires i <= |t|
    ensures p.Ok? ==> i < p.end <= |t|
    decreases |t| - i, 2
  {
    var (item, e) :- ParseItem(t, i, room, finite);
    if UnitAt(t, e) == COMMA then Prepend([item], ParseItems(t, e + 1, room, finite))
    else if UnitAt(t, e) == RBRACKET then Ok([item], e + 1)
    else Fail(None)
  }

  /** An array element with the whitespace around it. */
  function ParseItem(t: Text, i: nat, room: int, finite: Text -> bool): (p: Parsed<Item>)
    requires i <= |t|
    ensures p.Ok? ==> i < p.end <= |t|
    decreases |t| - i, 1
  {
    var b := WsEnd(t, i);
    var (node, e) :- ParseAny(t, b, room, finite);
    Ok(Item(WsText(t, i), node, WsText(t, e)), WsEnd(t, e))
  }

  /** The rest of an object; `i` is after the opening brace. */
  function ParseObject(t: Text, i: nat, room: int, finite: Text -> bool): (p: Parsed<Node>)
    requires i <= |t|
    ensures p.Ok? ==> i < p.end <= |t|
    decreases |t| - i, 3
  {
    var w := WsEnd(t, i);
    if room < 0 then Fail(None)
    else if UnitAt(t, w) == RBRACE then Ok(EmptyObject(WsText(t, i)), w + 1)
    else
      var (fields, e) :- ParseFields(t, i, room, {}, finite);
      Ok(ObjectNode(fields), e)
  }

  /** Members up to the closing brace; `seen` holds the decoded names met so far. */
  function ParseFields(t: Text, i: nat, room: int, seen: set<Text>, finite: Text -> bool): (p: Parsed<seq<Field>>)
    requires i <= |t|
    ensures p.Ok? ==> i < p.end <= |t|
    decreases |t| - i, 2
  {
    var (field, e) :- ParseField(t, i, room, seen, finite);
    if UnitAt(t, e) == COMMA then
      Prepend([field], ParseFields(t, e + 1, room, seen + {Units(field.name.chars)}, finite))
    else if UnitAt(t, e) == RBRACE then Ok([field], e + 1)
    else Fail(None)
  }

  /** One member with the whitespace around it. */
  function ParseField(t: Text, i: nat, room: int, seen: set<Text>, finite: Text -> bool): (p: Parsed<Field>)
    requires i <= |t|
    ensures p.Ok? ==> i < p.end <= |t|
    decreases |t| - i, 1
  {
    var (name, e) :- ParseName(t, i, seen);
    if UnitAt(t, e) != COLON then Fail(None)
    else
      var (item, e') :- ParseItem(t, e + 1, room, finite);
      Ok(Field(name, item), e')
  }

  /** A member's name, which must be new, with the whitespace around it. */
  function ParseName(t: Text, i: nat, seen: set<Text>): (p: Parsed<Name>)
    requires i <= |t|
    ensures p.Ok? ==> i < p.end <= |t|
  {
    var b := WsEnd(t, i);
    if UnitAt(t, b) != QUOTE then Fail(None)
    else
      var (chars, e) :- ParseChars(t, b + 1);
      if Units(chars) in seen then Fail(Some(Units(chars)))
      else Ok(Name(WsText(t, i), chars, WsText(t, e)), WsEnd(t, e))
  }

  /** A whole text: one value, whitespace around it, nothing after. */
  function ParseDocument(t: Text, maxDepth: int, finite: Text -> bool): Parsed<Item> {
    var (d, e) :- ParseItem(t, 0, maxDepth, finite);
    if e == |t| then Ok(d, e) else Fail(None)
  }
}
