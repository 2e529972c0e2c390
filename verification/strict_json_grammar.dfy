/**
 The JSON grammar of sections 2 to 7 of RFC 8259 as concrete syntax trees over UTF-16 code
 units, with what a tree prints to and what it means. Nothing here refers to the parser.
 */
module StrictJsonGrammar {
  import opened JsonValues
  import opened Options

  type CodeUnit = c: int | 0 <= c < 0x10000
  type Text = seq<CodeUnit>

  const QUOTE: CodeUnit := 0x22
  const BACKSLASH: CodeUnit := 0x5c
  const LOWER_U: CodeUnit := 0x75
  const COMMA: CodeUnit := 0x2c
  const COLON: CodeUnit := 0x3a
  const LBRACE: CodeUnit := 0x7b
  const RBRACE: CodeUnit := 0x7d
  const LBRACKET: CodeUnit := 0x5b
  const RBRACKET: CodeUnit := 0x5d
  const MINUS: CodeUnit := 0x2d
  const PLUS: CodeUnit := 0x2b
  const DOT: CodeUnit := 0x2e
  const ZERO: CodeUnit := 0x30
  const TRUE: Text := [0x74, 0x72, 0x75, 0x65]
  const FALSE: Text := [0x66, 0x61, 0x6c, 0x73, 0x65]
  const NULL: Text := [0x6e, 0x75, 0x6c, 0x6c]

  predicate IsWs(c: CodeUnit) { c == 0x20 || c == 0x09 || c == 0x0a || c == 0x0d }
  predicate IsDigit(c: CodeUnit) { 0x30 <= c <= 0x39 }
  predicate IsExp(c: CodeUnit) { c == 0x65 || c == 0x45 }
  predicate IsHigh(c: CodeUnit) { 0xd800 <= c <= 0xdbff }
  predicate IsLow(c: CodeUnit) { 0xdc00 <= c <= 0xdfff }

  ghost predicate AllWs(s: Text) { forall i | 0 <= i < |s| :: IsWs(s[i]) }
  ghost predicate AllDigits(s: Text) { forall i | 0 <= i < |s| :: IsDigit(s[i]) }

  /** The value of a hexadecimal digit of either case, or -1. */
  function HexValue(c: CodeUnit): (d: int)
    ensures -1 <= d < 16
  {
    if 0x30 <= c <= 0x39 then c - 0x30
    else if 0x61 <= c <= 0x66 then c - 0x57
    else if 0x41 <= c <= 0x46 then c - 0x37
    else -1
  }

  /** The code unit a two-character escape stands for, or -1. */
  function ShortEscape(e: CodeUnit): (u: int)
    ensures u == -1 || 0 <= u < 0x80
  {
    if e == 0x22 || e == 0x5c || e == 0x2f then e
    else if e == 0x62 then 0x08
    else if e == 0x66 then 0x0c
    else if e == 0x6e then 0x0a
    else if e == 0x72 then 0x0d
    else if e == 0x74 then 0x09
    else -1
  }

  // ---------- strings (RFC 8259 section 7) ----------

  datatype Char =
    | Raw(c: CodeUnit)
    | Short(e: CodeUnit)
    | Unicode(h0: CodeUnit, h1: CodeUnit, h2: CodeUnit, h3: CodeUnit)

  predicate GrammaticalChar(ch: Char) {
    match ch
    case Raw(c) => 0x20 <= c && c != QUOTE && c != BACKSLASH
    case Short(e) => ShortEscape(e) >= 0
    case Unicode(h0, h1, h2, h3) =>
      HexValue(h0) >= 0 && HexValue(h1) >= 0 && HexValue(h2) >= 0 && HexValue(h3) >= 0
  }

  function HexNumber(h0: CodeUnit, h1: CodeUnit, h2: CodeUnit, h3: CodeUnit): (v: int)
    requires GrammaticalChar(Unicode(h0, h1, h2, h3))
    ensures 0 <= v < 0x10000
  {
    ((HexValue(h0) * 16 + HexValue(h1)) * 16 + HexValue(h2)) * 16 + HexValue(h3)
  }

  /** The text of a character followed by `k`; so for every `...Onto` function below. */
  function CharOnto(ch: Char, k: Text): Text {
    match ch
    case Raw(c) => [c] + k
    case Short(e) => [BACKSLASH, e] + k
    case Unicode(h0, h1, h2, h3) => [BACKSLASH, LOWER_U, h0, h1, h2, h3] + k
  }

  function CharsOnto(chars: seq<Char>, k: Text): Text {
    if chars == [] then k else CharOnto(chars[0], CharsOnto(chars[1..], k))
  }

  /** The code unit a string character decodes to (0 outside the grammar). */
  function Unit(ch: Char): CodeUnit {
    if !GrammaticalChar(ch) then 0 else
    match ch
    case Raw(c) => c
    case Short(e) => ShortEscape(e)
    case Unicode(h0, h1, h2, h3) => HexNumber(h0, h1, h2, h3)
  }

  function Units(chars: seq<Char>): (u: Text)
    ensures |u| == |chars|
  {
    seq(|chars|, i requires 0 <= i < |chars| => Unit(chars[i]))
  }

  lemma UnitsAppend(a: seq<Char>, b: seq<Char>)
    ensures Units(a + b) == Units(a) + Units(b)
  {}

  ghost predicate GrammaticalChars(chars: seq<Char>) {
    forall i | 0 <= i < |chars| :: GrammaticalChar(chars[i])
  }

  /** Every surrogate has its other half beside it: well-formed UTF-16. */
  ghost predicate Paired(s: Text) {
    forall i | 0 <= i < |s| :: FollowedByLow(s, i) && PrecededByHigh(s, i)
  }

  ghost predicate FollowedByLow(s: Text, i: nat)
    requires i < |s|
  {
    IsHigh(s[i]) ==> i + 1 < |s| && IsLow(s[i + 1])
  }

  ghost predicate PrecededByHigh(s: Text, i: nat)
    requires i < |s|
  {
    IsLow(s[i]) ==> 0 < i && IsHigh(s[i - 1])
  }

  /** Every surrogate has its other half beside it, written the same way: raw beside raw,
      escape beside escape. */
  ghost predicate PairedInForm(chars: seq<Char>) {
    forall i | 0 <= i < |chars| :: PairedAt(chars, i)
  }

  ghost predicate PairedAt(chars: seq<Char>, i: nat)
    requires i < |chars|
  {
    && (IsHigh(Unit(chars[i])) ==>
          i + 1 < |chars| && IsLow(Unit(chars[i + 1])) && chars[i].Raw? == chars[i + 1].Raw?)
    && (IsLow(Unit(chars[i])) ==>
          0 < i && IsHigh(Unit(chars[i - 1])) && chars[i - 1].Raw? == chars[i].Raw?)
  }

  // ---------- numbers (RFC 8259 section 6) ----------

  datatype Exponent = Exponent(e: CodeUnit, sign: Option<CodeUnit>, digits: Text)
  datatype Numeral = Numeral(minus: bool, whole: Text, frac: Option<Text>, exp: Option<Exponent>)

  ghost predicate GrammaticalNumeral(n: Numeral) {
    && AllDigits(n.whole) && |n.whole| >= 1 && (n.whole[0] == ZERO ==> |n.whole| == 1)
    && (n.frac.Some? ==> AllDigits(n.frac.value) && |n.frac.value| >= 1)
    && (n.exp.Some? ==> GrammaticalExponent(n.exp.value))
  }

  ghost predicate GrammaticalExponent(x: Exponent) {
    && IsExp(x.e)
    && (x.sign.Some? ==> x.sign.value == PLUS || x.sign.value == MINUS)
    && AllDigits(x.digits) && |x.digits| >= 1
  }

  function FracOnto(f: Option<Text>, k: Text): Text {
    if f.None? then k else [DOT] + (f.value + k)
  }

  function ExpOnto(x: Option<Exponent>, k: Text): Text {
    if x.None? then k
    else if x.value.sign.None? then [x.value.e] + (x.value.digits + k)
    else [x.value.e, x.value.sign.value] + (x.value.digits + k)
  }

  function WholeOnto(n: Numeral, k: Text): Text {
    n.whole + FracOnto(n.frac, ExpOnto(n.exp, k))
  }

  function NumeralOnto(n: Numeral, k: Text): Text {
    if n.minus then [MINUS] + WholeOnto(n, k) else WholeOnto(n, k)
  }

  function PrintNumeral(n: Numeral): Text { NumeralOnto(n, []) }

  // ---------- values (RFC 8259 sections 2 to 5) ----------

  datatype Node =
    | NullNode
    | BoolNode(b: bool)
    | NumberNode(n: Numeral)
    | StringNode(chars: seq<Char>)
    | EmptyArray(inside: Text)
    | ArrayNode(items: seq<Item>)
    | EmptyObject(inside: Text)
    | ObjectNode(fields: seq<Field>)

  /** A value between optional whitespace: an array element, and also a whole JSON text. */
  datatype Item = Item(before: Text, node: Node, after: Text)
  datatype Name = Name(before: Text, chars: seq<Char>, after: Text)
  datatype Field = Field(name: Name, item: Item)

  function StringOnto(chars: seq<Char>, k: Text): Text {
    [QUOTE] + CharsOnto(chars, [QUOTE] + k)
  }

  function Onto(node: Node, k: Text): Text
    decreases node, 0
  {
    match node
    case NullNode => NULL + k
    case BoolNode(b) => (if b then TRUE else FALSE) + k
    case NumberNode(n) => NumeralOnto(n, k)
    case StringNode(chars) => StringOnto(chars, k)
    case EmptyArray(w) => [LBRACKET] + (w + ([RBRACKET] + k))
    case ArrayNode(items) => [LBRACKET] + ItemsOnto(items, [RBRACKET] + k)
    case EmptyObject(w) => [LBRACE] + (w + ([RBRACE] + k))
    case ObjectNode(fields) => [LBRACE] + FieldsOnto(fields, [RBRACE] + k)
  }

  function ItemOnto(it: Item, k: Text): Text
    decreases it, 1
  {
    it.before + Onto(it.node, it.after + k)
  }

  function NameOnto(n: Name, k: Text): Text {
    n.before + StringOnto(n.chars, n.after + k)
  }

  function FieldOnto(f: Field, k: Text): Text
    decreases f, 1
  {
    NameOnto(f.name, [COLON] + ItemOnto(f.item, k))
  }

  function ItemsOnto(items: seq<Item>, k: Text): Text
    decreases items, 2
  {
    if items == [] then k
    else if |items| == 1 then ItemOnto(items[0], k)
    else ItemOnto(items[0], [COMMA] + ItemsOnto(items[1..], k))
  }

  function FieldsOnto(fields: seq<Field>, k: Text): Text
    decreases fields, 2
  {
    if fields == [] then k
    else if |fields| == 1 then FieldOnto(fields[0], k)
    else FieldOnto(fields[0], [COMMA] + FieldsOnto(fields[1..], k))
  }

  /** The text of a whole document. */
  function PrintDocument(d: Item): Text { ItemOnto(d, []) }

  ghost predicate Grammatical(node: Node) {
    match node
    case NullNode => true
    case BoolNode(_) => true
    case NumberNode(n) => GrammaticalNumeral(n)
    case StringNode(chars) => GrammaticalChars(chars)
    case EmptyArray(w) => AllWs(w)
    case ArrayNode(items) =>
      items != [] && forall i | 0 <= i < |items| :: GrammaticalItem(items[i])
    case EmptyObject(w) => AllWs(w)
    case ObjectNode(fields) =>
      && fields != []
      && forall i | 0 <= i < |fields| :: GrammaticalName(fields[i].name) && GrammaticalItem(fields[i].item)
  }

  ghost predicate GrammaticalItem(it: Item) {
    AllWs(it.before) && Grammatical(it.node) && AllWs(it.after)
  }

  ghost predicate GrammaticalName(n: Name) {
    AllWs(n.before) && GrammaticalChars(n.chars) && AllWs(n.after)
  }

  /** The value a tree denotes. */
  function Meaning(node: Node): Json<Text> {
    match node
    case NullNode => Null
    case BoolNode(b) => Bool(b)
    case NumberNode(n) => Number(PrintNumeral(n))
    case StringNode(chars) => Str(Units(chars))
    case EmptyArray(_) => Array([])
    case ArrayNode(items) =>
      Array(seq(|items|, i requires 0 <= i < |items| => Meaning(items[i].node)))
    case EmptyObject(_) => Object([])
    case ObjectNode(fields) =>
      Object(seq(|fields|, i requires 0 <= i < |fields| =>
        Member(Units(fields[i].name.chars), Meaning(fields[i].item.node))))
  }

  /** Every string and name of the value is well-formed UTF-16. */
  ghost predicate WellFormedStrings(v: Json<Text>) {
    match v
    case Str(s) => Paired(s)
    case Array(items) => forall i | 0 <= i < |items| :: WellFormedStrings(items[i])
    case Object(members) =>
      forall i | 0 <= i < |members| :: Paired(members[i].name) && WellFormedStrings(members[i].value)
    case _ => true
  }

  /** Every numeral satisfies `finite`, which stands for a finite `Number(text)`. */
  ghost predicate FiniteNumbers(v: Json<Text>, finite: Text -> bool) {
    match v
    case Number(x) => finite(x)
    case Array(items) => forall i | 0 <= i < |items| :: FiniteNumbers(items[i], finite)
    case Object(members) =>
      forall i | 0 <= i < |members| :: FiniteNumbers(members[i].value, finite)
    case _ => true
  }

  /** No string or name of the tree pairs a raw half with an escaped half. */
  ghost predicate SurrogatesInForm(node: Node) {
    match node
    case StringNode(chars) => PairedInForm(chars)
    case ArrayNode(items) => forall i | 0 <= i < |items| :: SurrogatesInForm(items[i].node)
    case ObjectNode(fields) =>
      forall i | 0 <= i < |fields| :: PairedInForm(fields[i].name.chars) && SurrogatesInForm(fields[i].item.node)
    case _ => true
  }
}
