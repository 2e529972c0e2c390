/** Byte strings cut at line feeds: the batch view of a line-oriented log. */
module Lines {
  import opened Sequences

  newtype Byte = x: int | 0 <= x < 256
  type Bytes = seq<Byte>

  const LF: Byte := 0x0a

  /** Complete lines, each with its line feed, and the bytes after the last line feed. */
  datatype Cut = Cut(lines: seq<Bytes>, tail: Bytes)

  /** One more byte. */
  function Feed(c: Cut, x: Byte): Cut {
    if x == LF then Cut(c.lines + [c.tail + [x]], []) else Cut(c.lines, c.tail + [x])
  }

  function Split(b: Bytes): Cut {
    if b == [] then Cut([], []) else Feed(Split(b[..|b| - 1]), b[|b| - 1])
  }

  function Join(lines: seq<Bytes>): Bytes {
    if lines == [] then [] else Join(lines[..|lines| - 1]) + lines[|lines| - 1]
  }

  /** A line feed at the end and nowhere else. */
  predicate IsLine(l: Bytes) {
    |l| > 0 && l[|l| - 1] == LF && LF !in l[..|l| - 1]
  }

  ghost predicate AllLines(lines: seq<Bytes>) {
    forall i | 0 <= i < |lines| :: IsLine(lines[i])
  }

  lemma JoinPush(lines: seq<Bytes>, l: Bytes)
    ensures Join(lines + [l]) == Join(lines) + l
  {
    Unsnoc(lines, l);
  }

  lemma LineOf(body: Bytes)
    requires LF !in body
    ensures IsLine(body + [LF])
  {
    assert (body + [LF])[..|body|] == body;
  }

  /** Cutting loses nothing. */
  lemma {:induction false} SplitLossless(b: Bytes)
    ensures Join(Split(b).lines) + Split(b).tail == b
  {
    if b != [] {
      var front, x := b[..|b| - 1], b[|b| - 1];
      SplitLossless(front);
      Snoc(b);
      FeedLossless(Split(front), x);
    }
  }

  lemma FeedLossless(c: Cut, x: Byte)
    ensures Join(Feed(c, x).lines) + Feed(c, x).tail == Join(c.lines) + c.tail + [x]
  {
    Assoc(Join(c.lines), c.tail, [x]);
    JoinPush(c.lines, c.tail + [x]);
    AddNil(Join(c.lines + [c.tail + [x]]));
  }

  lemma {:induction false} SplitShape(b: Bytes)
    ensures AllLines(Split(b).lines) && LF !in Split(b).tail
  {
    if b != [] {
      SplitShape(b[..|b| - 1]);
      LineOf(Split(b[..|b| - 1]).tail);
    }
  }

  /** Cutting loses nothing, and what it yields are lines and a rest without a line feed. */
  lemma SplitJoins(b: Bytes)
    ensures Join(Split(b).lines) + Split(b).tail == b
    ensures AllLines(Split(b).lines) && LF !in Split(b).tail
  {
    SplitLossless(b);
    SplitShape(b);
  }

  lemma {:induction false} JoinAppend(a: seq<Bytes>, b: seq<Bytes>)
    ensures Join(a + b) == Join(a) + Join(b)
  {
    if b == [] {
      AddNil(a);
    } else {
      var front, l := b[..|b| - 1], b[|b| - 1];
      JoinAppend(a, front);
      Snoc(b);
      Assoc(a, front, [l]);
      JoinPush(a + front, l);
      Assoc(Join(a), Join(front), l);
    }
  }

  lemma FeedLast(b: Bytes, x: Byte)
    ensures Split(b + [x]) == Feed(Split(b), x)
  {
    Unsnoc(b, x);
  }

  lemma FeedAppended(lines: seq<Bytes>, c: Cut, x: Byte)
    ensures Feed(Cut(lines + c.lines, c.tail), x) == Cut(lines + Feed(c, x).lines, Feed(c, x).tail)
  {
    Assoc(lines, c.lines, [c.tail + [x]]);
  }

  /** Feeding `b` after `a` cuts `a + b`: what `a` completed stays, in order. */
  lemma {:induction false} SplitAppend(a: Bytes, b: Bytes)
    ensures var more := Split(Split(a).tail + b);
            Split(a + b) == Cut(Split(a).lines + more.lines, more.tail)
  {
    var t := Split(a).tail;
    if b == [] {
      SplitShape(a);
      TailSplits(t);
      AddNil(a);
      AddNil(t);
      AddNil(Split(a).lines);
    } else {
      var front, x := b[..|b| - 1], b[|b| - 1];
      SplitAppend(a, front);
      Snoc(b);
      Assoc(a, front, [x]);
      Assoc(t, front, [x]);
      FeedLast(a + front, x);
      FeedLast(t + front, x);
      FeedAppended(Split(a).lines, Split(t + front), x);
    }
  }

  lemma {:induction false} TailSplits(t: Bytes)
    requires LF !in t
    ensures Split(t) == Cut([], t)
  {
    if t != [] {
      TailSplits(t[..|t| - 1]);
      Snoc(t);
    }
  }

  lemma {:induction false} SplitOfLines(lines: seq<Bytes>)
    requires AllLines(lines)
    ensures Split(Join(lines)) == Cut(lines, [])
  {
    if lines != [] {
      var front, l := lines[..|lines| - 1], lines[|lines| - 1];
      SplitOfLines(front);
      Snoc(lines);
      LineAfterLines(Join(front), front, l);
    }
  }

  lemma LineAfterLines(b: Bytes, lines: seq<Bytes>, l: Bytes)
    requires Split(b) == Cut(lines, []) && IsLine(l)
    ensures Split(b + l) == Cut(lines + [l], [])
  {
    var body := l[..|l| - 1];
    SplitAppend(b, body);
    TailSplits(body);
    AddNil(body);
    AddNil(lines);
    FeedLast(b + body, LF);
    Snoc(l);
    Assoc(b, body, [LF]);
  }

  /** Lines and a rest without a line feed are cut back into themselves. */
  lemma SplitOfJoin(lines: seq<Bytes>, tail: Bytes)
    requires AllLines(lines) && LF !in tail
    ensures Split(Join(lines) + tail) == Cut(lines, tail)
  {
    SplitOfLines(lines);
    SplitAppend(Join(lines), tail);
    TailSplits(tail);
    AddNil(tail);
    AddNil(lines);
  }

  /** The complete lines of a prefix are a prefix of the complete lines. */
  lemma PrefixLines(b: Bytes, cut: nat)
    requires cut <= |b|
    ensures Split(b[..cut]).lines <= Split(b).lines
  {
    var front, back := b[..cut], b[cut..];
    assert b == front + back;
    SplitAppend(front, back);
  }
}
