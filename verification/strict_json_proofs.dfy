/** The strict parser is exact. */
module StrictJsonProofs {
  import opened JsonValues
  import opened Options
  import opened StrictJsonDerivation
  import opened StrictJsonGrammar
  import opened StrictJsonCompleteness
  import opened StrictJsonRules
  import opened StrictJsonSoundness
  import opened StrictJsonSurrogates

  /** The parser finds exactly the documents that print to the text and meet the wire rules. */
  lemma ParsesExactly(t: Text, maxDepth: int, finite: Text -> bool, d: Item)
    ensures ParseDocument(t, maxDepth, finite) == Ok(d, |t|)
       <==> PrintDocument(d) == t && AdmissibleItem(d, maxDepth, finite)
  {
    FromSlice(t, 0, |t|);
    assert From(t, 0) == t;
    var p := ParseItem(t, 0, maxDepth, finite);
    if p.Ok? && p.end == |t| {
      SoundItem(t, 0, maxDepth, finite);
    }
    if PrintDocument(d) == t && AdmissibleItem(d, maxDepth, finite) {
      CompleteItem(t, 0, d, [], maxDepth, finite);
    }
  }

  /** No text has two admissible readings. */
  lemma Unambiguous(d: Item, d': Item, n: int, finite: Text -> bool)
    requires AdmissibleItem(d, n, finite) && AdmissibleItem(d', n, finite)
    requires PrintDocument(d) == PrintDocument(d')
    ensures d == d'
  {
    ParsesExactly(PrintDocument(d), n, finite, d);
    ParsesExactly(PrintDocument(d), n, finite, d');
  }

  /** A text that is itself well-formed UTF-16, as every decoded byte body is, is accepted with
      a value exactly when it is a rendering of that value in the grammar of RFC 8259 and the
      value meets the rules of RFC 7493 and the depth bound; how characters are escaped does not
      matter. */
  lemma AcceptsExactly(t: Text, maxDepth: int, finite: Text -> bool, v: Json<Text>)
    requires Paired(t)
    ensures (exists d: Item :: ParseDocument(t, maxDepth, finite) == Ok(d, |t|) && Meaning(d.node) == v)
       <==> (exists d: Item :: PrintDocument(d) == t && GrammaticalItem(d) && Meaning(d.node) == v)
            && UniqueNames(v) && NestsWithin(v, maxDepth) && FiniteNumbers(v, finite) && WellFormedStrings(v)
  {
    assert PairedInside(t) by {
      forall i | 0 <= i < |t| ensures FollowedByLow(t, i) && (IsLow(t[i]) && 0 < i ==> IsHigh(t[i - 1])) {
        assert FollowedByLow(t, i) && PrecededByHigh(t, i);
      }
    }
    forall d: Item | PrintDocument(d) == t && GrammaticalItem(d) && Meaning(d.node) == v
      ensures AdmissibleItem(d, maxDepth, finite)
         <==> UniqueNames(v) && NestsWithin(v, maxDepth) && FiniteNumbers(v, finite) && WellFormedStrings(v)
    {
      PairedInsideTail(d.before, Onto(d.node, d.after + []));
      InForm(d.node, d.after + []);
    }
    if d: Item :| ParseDocument(t, maxDepth, finite) == Ok(d, |t|) && Meaning(d.node) == v {
      ParsesExactly(t, maxDepth, finite, d);
    }
    if d: Item :| PrintDocument(d) == t && GrammaticalItem(d) && Meaning(d.node) == v {
      ParsesExactly(t, maxDepth, finite, d);
    }
  }

  /** Given as a string, a text may split a pair between a raw half and an escaped half. Its
      value is well formed and it is still rejected. */
  lemma MixedPairRejected(finite: Text -> bool)
    ensures var chars := [Raw(0xd83d), Unicode(0x64, 0x65, 0x30, 0x30)];
            var d := Item([], StringNode(chars), []);
            && GrammaticalItem(d) && Meaning(d.node) == Str([0xd83d, 0xde00])
            && WellFormedStrings(Meaning(d.node))
            && ParseDocument(PrintDocument(d), 32, finite) == Fail(None)
  {
    var chars := [Raw(0xd83d), Unicode(0x64, 0x65, 0x30, 0x30)];
    assert Units(chars) == [0xd83d, 0xde00];
    var t := PrintDocument(Item([], StringNode(chars), []));
    assert CharsOnto(chars, [QUOTE]) == [0xd83d] + CharsOnto(chars[1..], [QUOTE]);
    assert CharsOnto(chars[1..], [QUOTE]) == CharOnto(chars[1], [QUOTE]) by { assert chars[1..][1..] == []; }
    assert [QUOTE] + [] == [QUOTE];
    var none: Text := [];
    assert none + none == none && t == none + StringOnto(chars, none);
    assert t == [QUOTE, 0xd83d, BACKSLASH, LOWER_U, 0x64, 0x65, 0x30, 0x30, QUOTE];
    assert ParseHead(t, 1) == Fail(None);
  }
}
