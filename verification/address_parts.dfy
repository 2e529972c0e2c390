/**
 Splitting undoes joining: parts without the separator come back from their joined text, in either case of letters,
 and halves around "::" come back from theirs. With it, what the address parser assembles from the groups it has split
 is what was joined, with zeros between the halves.
 */
module AddressParts {
  import opened EgressAddresses
  import opened Options
  import opened Sequences
  import opened Texts

  lemma {:induction false} SplitOnPlain(t: string, c: char)
    requires c !in t
    ensures SplitOn(t, c) == [t]
  {
    if t != "" {
      SplitOnPlain(t[..|t| - 1], c);
      Snoc(t);
    }
  }

  lemma {:induction false} SplitOnAppend(s: string, c: char, t: string)
    requires c !in t
    ensures SplitOn(s + [c] + t, c) == SplitOn(s, c) + [t]
  {
    var base := s + [c];
    if t == "" {
      AddNil(base);
      Unsnoc(s, c);
    } else {
      var front, x := t[..|t| - 1], t[|t| - 1];
      SplitOnAppend(s, c, front);
      Snoc(t);
      Assoc(base, front, [x]);
      Unsnoc(base + front, x);
      Unsnoc(SplitOn(s, c), front);
    }
  }

  lemma {:induction false} SplitOnJoined(parts: seq<string>, c: char)
    requires parts != [] && forall i | 0 <= i < |parts| :: c !in parts[i]
    ensures SplitOn(Joined(parts, c), c) == parts
  {
    if |parts| == 1 {
      SplitOnPlain(parts[0], c);
    } else {
      var front, last := parts[..|parts| - 1], parts[|parts| - 1];
      SplitOnJoined(front, c);
      SplitOnAppend(Joined(front, c), c, last);
      Snoc(parts);
    }
  }

  /** Characters that every part consists of are those of the text, but for the separator. */
  lemma {:induction false} PartsCover(s: string, c: char, ok: char -> bool)
    requires forall i, j | 0 <= i < |SplitOn(s, c)| && 0 <= j < |SplitOn(s, c)[i]| :: ok(SplitOn(s, c)[i][j])
    ensures forall j | 0 <= j < |s| :: s[j] == c || ok(s[j])
  {
    if s != "" {
      var front, x := s[..|s| - 1], s[|s| - 1];
      var parts, whole := SplitOn(front, c), SplitOn(s, c);
      var n := |parts| - 1;
      assert forall i | 0 <= i < n :: whole[i] == parts[i];
      if x != c {
        assert whole[n] == parts[n] + [x];
        assert ok(whole[n][|parts[n]|]);
        assert forall j | 0 <= j < |parts[n]| :: parts[n][j] == whole[n][j];
      } else {
        assert whole[n] == parts[n];
      }
      PartsCover(front, c, ok);
      forall j | 0 <= j < |s| ensures s[j] == c || ok(s[j]) {
        if j < |front| { assert front[j] == s[j]; }
      }
    }
  }

  lemma DottedHasNoColon(s: string)
    requires IsDotted(s)
    ensures ':' !in s
  {
    PartsCover(s, '.', c => IsDigit(c));
  }

  lemma UndottedHasNoDot(s: string)
    requires '.' !in s
    ensures !IsDotted(s)
  {
    SplitOnPlain(s, '.');
  }

  lemma {:induction false} TailFound(h: string, i: nat, n: nat)
    requires i <= n < |h| && IsDotted(h[n..]) && forall j | i <= j < n :: ':' in h[j..]
    ensures TailAt(h, i) == Some(n)
    decreases n - i
  {
    if i < n {
      if IsDotted(h[i..]) { DottedHasNoColon(h[i..]); }
      TailFound(h, i + 1, n);
    }
  }

  lemma {:induction false} TailMissing(h: string, i: nat)
    requires i <= |h| && '.' !in h
    ensures TailAt(h, i) == None
    decreases |h| - i
  {
    if i < |h| {
      UndottedHasNoDot(h[i..]);
      TailMissing(h, i + 1);
    }
  }

  predicate DoubleAt(s: string, i: nat)
    requires i + 1 < |s|
  {
    s[i] == ':' && s[i + 1] == ':'
  }

  ghost predicate NoDouble(s: string) { forall i: nat | i + 1 < |s| :: !DoubleAt(s, i) }

  lemma NoDoubleRest(s: string)
    requires NoDouble(s) && s != ""
    ensures NoDouble(s[1..])
  {
    forall i: nat | i + 1 < |s| - 1 ensures !DoubleAt(s[1..], i) { assert !DoubleAt(s, i + 1); }
  }

  lemma {:induction false} SplitSingle(s: string)
    requires NoDouble(s)
    ensures SplitDouble(s) == [s]
  {
    if |s| >= 2 {
      assert !DoubleAt(s, 0);
      NoDoubleRest(s);
      SplitSingle(s[1..]);
      assert [s[0]] + s[1..] == s;
    }
  }

  lemma {:induction false} SplitPair(a: string, b: string)
    requires NoDouble(a) && (a == "" || a[|a| - 1] != ':') && NoDouble(b)
    ensures SplitDouble(a + "::" + b) == [a, b]
  {
    var s := a + "::" + b;
    if a == "" {
      assert s[2..] == b && s[0] == ':' && s[1] == ':';
      SplitSingle(b);
    } else {
      NoDoubleRest(a);
      assert s[1..] == a[1..] + "::" + b && s[0] == a[0];
      assert !(s[0] == ':' && s[1] == ':') by {
        if |a| > 1 { assert !DoubleAt(a, 0); }
      }
      SplitPair(a[1..], b);
      assert [a[0]] + a[1..] == a;
    }
  }

  /** Groups joined by colons neither begin nor end with one, nor have two in a row. */
  lemma {:induction false} JoinedShape(parts: seq<string>)
    requires AreGroupTexts(parts)
    ensures var s := Joined(parts, ':');
            && NoDouble(s) && '.' !in s && (parts == [] <==> s == "")
            && (s != "" ==> s[0] != ':' && s[|s| - 1] != ':')
  {
    if |parts| > 1 {
      var front, last := parts[..|parts| - 1], parts[|parts| - 1];
      var a, s := Joined(front, ':'), Joined(parts, ':');
      JoinedShape(front);
      forall i: nat | i + 1 < |s| ensures !DoubleAt(s, i) {
        if i + 1 < |a| { assert !DoubleAt(a, i); }
      }
    } else if |parts| == 1 {
      assert forall i | 0 <= i < |parts[0]| :: IsHexDigit(parts[0][i]);
    }
  }

  lemma {:induction false} AllNonEmpty(parts: seq<string>)
    requires AreGroupTexts(parts)
    ensures NonEmpty(parts) == parts
  {
    if parts != [] {
      AllNonEmpty(parts[..|parts| - 1]);
      Snoc(parts);
    }
  }

  /** The groups of one half come back out of its text. */
  lemma HalfParts(parts: seq<string>)
    requires AreGroupTexts(parts)
    ensures NonEmpty(SplitOn(Joined(parts, ':'), ':')) == parts
  {
    if parts == [] {
      assert SplitOn("", ':') == [""];
      assert NonEmpty([""]) == NonEmpty([""][..0]) + [];
    } else {
      forall i | 0 <= i < |parts| ensures ':' !in parts[i] { assert IsGroupText(parts[i]); }
      SplitOnJoined(parts, ':');
      AllNonEmpty(parts);
    }
  }

  lemma {:induction false} ValuesAppend(a: seq<string>, b: seq<string>)
    requires AreGroupTexts(a) && AreGroupTexts(b)
    ensures AreGroupTexts(a + b) && Values(a + b) == Values(a) + Values(b)
  {
    if b == [] {
      AddNil(a);
      AddNil(Values(a));
    } else {
      var front, last := b[..|b| - 1], b[|b| - 1];
      ValuesAppend(a, front);
      Snoc(b);
      Assoc(a, front, [last]);
      Unsnoc(a + front, last);
      Assoc(Values(a), Values(front), [NumberOf(last, 16)]);
    }
  }

  lemma AssembleFull(texts: seq<string>, v4: seq<nat>)
    requires AreGroupTexts(texts) && |texts| + |v4| == 8
    ensures Assemble(Joined(texts, ':'), v4) == Some(Values(texts) + v4)
  {
    hide NonEmpty, SplitOn, SplitDouble, Values, Joined;
    JoinedShape(texts);
    SplitSingle(Joined(texts, ':'));
    HalfParts(texts);
    AddNil(texts);
  }

  lemma BothGroups(a: seq<string>, b: seq<string>)
    requires AreGroupTexts(a) && AreGroupTexts(b)
    ensures AreGroupTexts(a + b)
  {}

  lemma AssembleCompressed(head: seq<string>, back: seq<string>, v4: seq<nat>)
    requires AreGroupTexts(head) && AreGroupTexts(back) && |head| + |back| + |v4| <= 8
    ensures Assemble(Joined(head, ':') + "::" + Joined(back, ':'), v4)
            == Some(Values(head) + Zeros(8 - |head| - |back| - |v4|) + Values(back) + v4)
  {
    hide *;
    var x, y := Joined(head, ':'), Joined(back, ':');
    assert SplitDouble(x + "::" + y) == [x, y] by {
      JoinedShape(head);
      JoinedShape(back);
      SplitPair(x, y);
    }
    HalfParts(head);
    HalfParts(back);
    ValuesAppend(head, back);
    assert AreGroupTexts(head + back) by { BothGroups(head, back); }
    AssembleHalves(x + "::" + y, v4, [x, y], head, back, Values(head), Values(back));
  }

  lemma AssembleHalves(rest: string, v4: seq<nat>, halves: seq<string>, head: seq<string>, back: seq<string>,
                       p: seq<nat>, q: seq<nat>)
    requires SplitDouble(rest) == halves && |halves| == 2
    requires NonEmpty(SplitOn(halves[0], ':')) == head && NonEmpty(SplitOn(halves[1], ':')) == back
    requires AreGroupTexts(head + back) && Values(head + back) == p + q && |p| == |head| && |q| == |back|
    requires |head| + |back| + |v4| <= 8
    ensures Assemble(rest, v4) == Some(p + Zeros(8 - |head| - |back| - |v4|) + q + v4)
  {
    hide NonEmpty, SplitOn, SplitDouble, Values, Zeros, AreGroupTexts;
    TakeDrop(p, q);
  }

  lemma TakeDrop<T>(a: seq<T>, b: seq<T>)
    ensures (a + b)[..|a|] == a && (a + b)[|a|..] == b
  {}

  // ---------- case ----------

  lemma {:induction false} LowerAppend(a: string, b: string)
    ensures Lower(a + b) == Lower(a) + Lower(b)
  {
    if b == "" {
      AddNil(a);
      AddNil(Lower(a));
    } else {
      var front, x := b[..|b| - 1], b[|b| - 1];
      LowerAppend(a, front);
      Snoc(b);
      Assoc(a, front, [x]);
      Unsnoc(a + front, x);
      Assoc(Lower(a), Lower(front), [LowerChar(x)]);
    }
  }

  lemma LowerOne(x: char)
    ensures Lower([x]) == [LowerChar(x)]
  {
    Unsnoc("", x);
  }

  lemma {:induction false} LowerJoined(parts: seq<string>, c: char)
    requires LowerChar(c) == c
    ensures Lower(Joined(parts, c)) == Joined(LowerEach(parts), c)
  {
    var lowered := LowerEach(parts);
    if |parts| > 1 {
      var front, last := parts[..|parts| - 1], parts[|parts| - 1];
      LowerJoined(front, c);
      assert lowered[..|parts| - 1] == LowerEach(front);
      LowerAppend(Joined(front, c) + [c], last);
      LowerAppend(Joined(front, c), [c]);
      LowerOne(c);
    }
  }

  lemma {:induction false} LowerDigits(s: string)
    requires forall i | 0 <= i < |s| :: IsDigit(s[i])
    ensures Lower(s) == s
  {
    if s != "" {
      LowerDigits(s[..|s| - 1]);
      Snoc(s);
    }
  }
}
