/** What the journal promises. */
module JournalProofs {
  import opened Journal
  import opened Lines
  import opened Markers
  import opened Options
  import opened Sequences

  // Recovery from a cut at any byte, and evidence of any rewritten line. SHA-256 is never taken to be
  // injective: where it matters, a collision is one of the outcomes.

  // ---------- chains: what appends build ----------

  ghost predicate Link(c: Codec, lines: seq<Bytes>, ms: seq<Marker>, j: nat)
    requires j < |lines| == |ms|
  {
    lines[j] == Line(c, ms[j]) && WellFormed(ms[j]) && ms[j].tx == j + 1 && ms[j].previous == HashAfter(c, lines[..j])
  }

  /** Line j is marker j as printed, with tx j + 1, naming the hash of line j - 1. */
  ghost predicate Chain(c: Codec, lines: seq<Bytes>, ms: seq<Marker>) {
    |lines| == |ms| && forall j | 0 <= j < |lines| :: Link(c, lines, ms, j)
  }

  lemma ReadsBack(c: Codec, m: Marker)
    requires Faithful(c) && WellFormed(m)
    ensures var line := Line(c, m);
            IsLine(line) && c.read(line) == Good(m)
  {
    LineOf(c.encode(m));
  }

  lemma ChainLines(c: Codec, lines: seq<Bytes>, ms: seq<Marker>)
    requires Faithful(c) && Chain(c, lines, ms)
    ensures AllLines(lines)
  {
    forall j | 0 <= j < |lines| ensures IsLine(lines[j]) {
      assert Link(c, lines, ms, j);
      ReadsBack(c, ms[j]);
    }
  }

  lemma ChainPrefix(c: Codec, lines: seq<Bytes>, ms: seq<Marker>, n: nat)
    requires Chain(c, lines, ms) && n <= |lines|
    ensures Chain(c, lines[..n], ms[..n])
  {
    forall j | 0 <= j < n ensures Link(c, lines[..n], ms[..n], j) {
      assert Link(c, lines, ms, j);
      assert lines[..n][..j] == lines[..j];
    }
  }

  lemma ChainPush(c: Codec, lines: seq<Bytes>, ms: seq<Marker>, m: Marker)
    requires Chain(c, lines, ms) && WellFormed(m) && m.tx == |ms| + 1 && m.previous == HashAfter(c, lines)
    ensures Chain(c, lines + [Line(c, m)], ms + [m])
  {
    var lines', ms' := lines + [Line(c, m)], ms + [m];
    forall j | 0 <= j < |lines'| ensures Link(c, lines', ms', j) {
      assert lines'[..j] == lines[..j];
      if j < |lines| {
        assert Link(c, lines, ms, j);
      } else {
        assert lines[..j] == lines;
      }
    }
  }

  /** Verification accepts a chain and reads every marker back. */
  lemma {:induction false} ChainVerifies(c: Codec, lines: seq<Bytes>, ms: seq<Marker>)
    requires Faithful(c) && Chain(c, lines, ms)
    ensures AllLines(lines) && Check(c, lines) == Verified(ms)
    decreases |lines|
  {
    ChainLines(c, lines, ms);
    if lines != [] {
      var n := |lines| - 1;
      ChainPrefix(c, lines, ms, n);
      ChainVerifies(c, lines[..n], ms[..n]);
      assert Link(c, lines, ms, n);
      ReadsBack(c, ms[n]);
      LastTx(c, lines, ms, n);
      assert CheckNext(c, lines[..n], ms[..n], lines[n]) == Verified(ms[..n] + [ms[n]]);
      Snoc(ms);
    }
  }

  lemma LastTx(c: Codec, lines: seq<Bytes>, ms: seq<Marker>, n: nat)
    requires Chain(c, lines, ms) && n <= |lines|
    ensures n > 0 ==> ms[..n][n - 1].tx == n
  {
    if n > 0 {
      assert Link(c, lines, ms, n - 1);
    }
  }

  // ---------- every run of appends, verifications and crashes ----------

  datatype Op =
    | Append(m: Marker)
    | AppendSync(m: Marker)
    | Verify
    | Crash(bytes: nat) // the process ends; at most the first `bytes` bytes of the file survive

  ghost function Step(c: Codec, s: State, op: Op): State {
    match op
    case Append(m) => AfterAppend(c, if s.headKnown then s else AfterVerify(c, s).1, m).1
    case AppendSync(m) => AfterAppend(c, s, m).1
    case Verify => AfterVerify(c, s).1
    case Crash(n) =>
      Opened(c, if s.file.None? then None else Some(Kept(s.file.value, n)), s.quarantine)
  }

  function Kept(b: Bytes, n: nat): Bytes { if n < |b| then b[..n] else b }

  ghost function Run(c: Codec, s: State, ops: seq<Op>): State {
    if ops == [] then s else Step(c, Run(c, s, ops[..|ops| - 1]), ops[|ops| - 1])
  }

  /** The file is a chain and perhaps a torn line; a known head is the chain's, with nothing torn;
      the journal is writable. */
  ghost predicate Sound(c: Codec, s: State, lines: seq<Bytes>, ms: seq<Marker>, tail: Bytes) {
    && Chain(c, lines, ms) && LF !in tail && Content(s) == Join(lines) + tail
    && s.readOnly == None
    && (s.headKnown ==> tail == [] && s.head == Head(TxAfter(ms), HashAfter(c, lines)))
  }

  lemma SoundCut(c: Codec, s: State, lines: seq<Bytes>, ms: seq<Marker>, tail: Bytes)
    requires Faithful(c) && Sound(c, s, lines, ms, tail)
    ensures Split(Content(s)) == Cut(lines, tail)
  {
    ChainLines(c, lines, ms);
    SplitOfJoin(lines, tail);
  }

  /** Verification of a sound journal answers its markers and leaves just its complete lines. */
  lemma VerifySound(c: Codec, s: State, lines: seq<Bytes>, ms: seq<Marker>, tail: Bytes)
    requires Faithful(c) && Sound(c, s, lines, ms, tail)
    ensures var (r, s') := AfterVerify(c, s);
            && r == OkResult(ms, Torn(tail)) && Sound(c, s', lines, ms, []) && s'.headKnown
            && s'.quarantine == s.quarantine + if tail == [] then [] else [tail]
  {
    SoundCut(c, s, lines, ms, tail);
    ChainVerifies(c, lines, ms);
    AddNil(Join(lines));
    AddNil(s.quarantine);
    assert lines[..|ms|] == lines;
    if Content(s) == [] {
      assert lines == [];
    }
  }

  /** An append to a sound journal with a known head goes ahead exactly when the marker is well
      formed and extends the head; it adds one line. */
  lemma AppendSound(c: Codec, s: State, lines: seq<Bytes>, ms: seq<Marker>, m: Marker)
    requires Faithful(c) && Sound(c, s, lines, ms, []) && s.headKnown
    ensures var (r, s') := AfterAppend(c, s, m);
            && (r.Done? <==> WellFormed(m) && m.tx == |ms| + 1 && m.previous == HashAfter(c, lines))
            && (r == Threw(ChainMismatch) <==> m.tx != |ms| + 1 || m.previous != HashAfter(c, lines))
            && (r == Threw(CorruptError) <==> m.tx == |ms| + 1 && m.previous == HashAfter(c, lines) && !WellFormed(m))
            && s'.headKnown && s'.quarantine == s.quarantine
            && if r.Done? then Sound(c, s', lines + [Line(c, m)], ms + [m], []) else s' == s
  {
    LastTx(c, lines, ms, |ms|);
    assert ms[..|ms|] == ms;
    if Refusal(s, m).None? {
      ChainPush(c, lines, ms, m);
      JoinPush(lines, Line(c, m));
      AddNil(Join(lines));
      AddNil(Join(lines + [Line(c, m)]));
    }
  }

  /** Whatever bytes survive a crash, the complete lines among them are the first of the chain. */
  lemma CrashSound(c: Codec, s: State, lines: seq<Bytes>, ms: seq<Marker>, tail: Bytes, n: nat)
    returns (k: nat, tail': Bytes)
    requires Faithful(c) && Sound(c, s, lines, ms, tail)
    ensures k <= |lines| && Sound(c, Step(c, s, Crash(n)), lines[..k], ms[..k], tail')
    ensures Split(Content(Step(c, s, Crash(n)))) == Cut(lines[..k], tail')
  {
    var b := Kept(Content(s), n);
    SoundCut(c, s, lines, ms, tail);
    if n < |Content(s)| {
      PrefixLines(Content(s), n);
    }
    SplitJoins(b);
    k, tail' := |Split(b).lines|, Split(b).tail;
    assert Split(b).lines == lines[..k];
    ChainPrefix(c, lines, ms, k);
  }

  /** One step keeps a journal sound: lines are only ever added at the end or lost from it by a crash. */
  lemma StepSound(c: Codec, s: State, lines: seq<Bytes>, ms: seq<Marker>, tail: Bytes, op: Op)
    returns (lines': seq<Bytes>, ms': seq<Marker>, tail': Bytes)
    requires Faithful(c) && Sound(c, s, lines, ms, tail)
    ensures Sound(c, Step(c, s, op), lines', ms', tail')
    ensures if op.Crash? then ms' <= ms else ms <= ms'
  {
    lines', ms', tail' := lines, ms, tail;
    match op {
      case Verify =>
        VerifySound(c, s, lines, ms, tail);
        tail' := [];
      case AppendSync(m) =>
        if s.headKnown {
          AppendSound(c, s, lines, ms, m);
          if AfterAppend(c, s, m).0.Done? { lines', ms' := lines + [Line(c, m)], ms + [m]; }
        }
      case Append(m) =>
        VerifySound(c, s, lines, ms, tail);
        var s1 := if s.headKnown then s else AfterVerify(c, s).1;
        AppendSound(c, s1, lines, ms, m);
        tail' := [];
        if AfterAppend(c, s1, m).0.Done? { lines', ms' := lines + [Line(c, m)], ms + [m]; }
      case Crash(n) =>
        var k;
        k, tail' := CrashSound(c, s, lines, ms, tail, n);
        lines', ms' := lines[..k], ms[..k];
    }
  }

  lemma {:induction false} RunSound(c: Codec, ops: seq<Op>)
    returns (lines: seq<Bytes>, ms: seq<Marker>, tail: Bytes)
    requires Faithful(c)
    ensures Sound(c, Run(c, Opened(c, None, []), ops), lines, ms, tail)
  {
    if ops == [] {
      lines, ms, tail := [], [], [];
    } else {
      var n := |ops| - 1;
      lines, ms, tail := RunSound(c, ops[..n]);
      lines, ms, tail := StepSound(c, Run(c, Opened(c, None, []), ops[..n]), lines, ms, tail, ops[n]);
    }
  }

  /** Whatever run of appends, verifications and crashes produced the file, verification answers
      OK: crashes are never mistaken for corruption, and the markers form one gap-free chain. */
  lemma NeverCorrupt(c: Codec, ops: seq<Op>)
    requires Faithful(c)
    ensures var s := Run(c, Opened(c, None, []), ops);
            var r := AfterVerify(c, s).0;
            && s.readOnly == None && r.OkResult?
            && Chain(c, Split(Content(s)).lines, r.markers)
            && r.torn == Torn(Split(Content(s)).tail)
  {
    var s := Run(c, Opened(c, None, []), ops);
    var lines, ms, tail := RunSound(c, ops);
    SoundCut(c, s, lines, ms, tail);
    VerifySound(c, s, lines, ms, tail);
  }

  /** Cut a chain at any byte: exactly the markers of the complete lines are recovered, what is kept
      followed by what is quarantined is the cut file, and the next marker extends the chain. */
  lemma CrashRecovery(c: Codec, lines: seq<Bytes>, ms: seq<Marker>, cut: nat, q: seq<Bytes>, fields: Fields)
    requires Faithful(c) && Chain(c, lines, ms) && cut <= |Join(lines)|
    ensures var b := Join(lines)[..cut];
            var k := |Split(b).lines|;
            var tail := Split(b).tail;
            var (r, s) := AfterVerify(c, Opened(c, Some(b), q));
            var m := Marker(NextTx(s), s.head.hash, fields.records, fields.objects, fields.mutation, fields.result);
            && k <= |ms| && Split(b).lines == lines[..k]
            && r == OkResult(ms[..k], Torn(tail))
            && Content(s) + tail == b && s.quarantine == q + (if tail == [] then [] else [tail])
            && (WellFormed(m) ==>
                  && AfterAppend(c, s, m).0.Done?
                  && Sound(c, AfterAppend(c, s, m).1, lines[..k] + [Line(c, m)], ms[..k] + [m], []))
  {
    var whole := Opened(c, Some(Join(lines)), q);
    AddNil(Join(lines));
    assert Sound(c, whole, lines, ms, []);
    var b := Join(lines)[..cut];
    assert Kept(Join(lines), cut) == b;
    var k, tail := CrashSound(c, whole, lines, ms, [], cut);
    var s0 := Step(c, whole, Crash(cut));
    assert s0 == Opened(c, Some(b), q);
    VerifySound(c, s0, lines[..k], ms[..k], tail);
    var s := AfterVerify(c, s0).1;
    var m := Marker(NextTx(s), s.head.hash, fields.records, fields.objects, fields.mutation, fields.result);
    AddNil(Join(lines[..k]));
    ChainPrefix(c, lines, ms, k);
    LastTx(c, lines[..k], ms[..k], k);
    assert ms[..k][..k] == ms[..k];
    AppendSound(c, s, lines[..k], ms[..k], m);
  }

  /** On any file at all, a second verification finds the same markers and the same faults, and
      changes nothing. */
  lemma VerifyTwice(c: Codec, s: State)
    ensures var (r, s1) := AfterVerify(c, s);
            AfterVerify(c, s1) == (if r.OkResult? then OkResult(r.markers, None) else r, s1)
  {
    var cut := Split(Content(s));
    SplitJoins(Content(s));
    if Content(s) != [] {
      SplitOfLines(cut.lines);
      var s1 := AfterVerify(c, s).1;
      assert Content(s1) == Join(cut.lines);
      if Join(cut.lines) == [] {
        assert cut.lines == [] by { assert Split(Join(cut.lines)) == Cut([], []); }
      } else {
        AddNil(s1.quarantine);
      }
    }
  }

  // ---------- tamper evidence ----------

  /** Two different lines with one hash. */
  ghost predicate Collides(c: Codec, x: Bytes, y: Bytes) {
    x != y && c.sha(x) == c.sha(y)
  }

  lemma PassedNext(c: Codec, front: seq<Bytes>, ms: seq<Marker>, line: Bytes)
    requires CheckNext(c, front, ms, line).Verified?
    ensures var m := c.read(line);
            && m.Good? && m.marker.previous == HashAfter(c, front)
            && CheckNext(c, front, ms, line).markers == ms + [m.marker]
  {}

  lemma VerifiedStep(c: Codec, lines: seq<Bytes>, n: nat)
    requires AllLines(lines) && n < |lines| && Check(c, lines[..n + 1]).Verified?
    ensures var m := c.read(lines[n]);
            && m.Good? && m.marker.previous == HashAfter(c, lines[..n])
            && Check(c, lines[..n]).Verified?
            && Check(c, lines[..n + 1]).markers == Check(c, lines[..n]).markers + [m.marker]
  {
    CheckStep(c, lines, n);
    PassedNext(c, lines[..n], Check(c, lines[..n]).markers, lines[n]);
  }

  lemma {:induction false} VerifiedPrefix(c: Codec, lines: seq<Bytes>, n: nat)
    requires AllLines(lines) && Check(c, lines).Verified? && n <= |lines|
    ensures Check(c, lines[..n]).Verified? && Check(c, lines[..n]).markers == Check(c, lines).markers[..n]
    decreases |lines| - n
  {
    if n == |lines| {
      assert lines[..n] == lines;
    } else {
      VerifiedPrefix(c, lines, n + 1);
      VerifiedStep(c, lines, n);
      TakeMore(Check(c, lines).markers, n, Check(c, lines[..n]).markers, c.read(lines[n]).marker);
    }
  }

  lemma TakeMore<T>(s: seq<T>, n: nat, front: seq<T>, x: T)
    requires n < |s| && s[..n + 1] == front + [x] && |front| == n
    ensures s[..n] == front && s[n] == x
  {
    assert s[..n + 1][..n] == s[..n];
    assert s[..n + 1][n] == s[n];
  }

  lemma VerifiedLink(c: Codec, lines: seq<Bytes>, n: nat)
    requires AllLines(lines) && Check(c, lines).Verified? && n < |lines|
    ensures var m := Check(c, lines).markers[n];
            c.read(lines[n]) == Good(m) && m.previous == HashAfter(c, lines[..n])
  {
    VerifiedPrefix(c, lines, n + 1);
    VerifiedStep(c, lines, n);
    TakeMore(Check(c, lines).markers, n, Check(c, lines[..n]).markers, c.read(lines[n]).marker);
  }

  /** A line whose marker names another predecessor stops the check, and its predecessor is dropped. */
  lemma WrongPrevious(c: Codec, lines: seq<Bytes>, n: nat)
    requires AllLines(lines) && n + 1 < |lines| && Check(c, lines[..n + 1]).Verified?
    requires c.read(lines[n + 1]).Good? && c.read(lines[n + 1]).marker.previous != c.sha(lines[n])
    ensures Check(c, lines).Corrupt? && Check(c, lines).markers == Check(c, lines[..n]).markers
  {
    hide CheckNext;
    VerifiedStep(c, lines, n);
    CheckStep(c, lines, n + 1);
    Unlinked(c, lines[..n + 1], Check(c, lines[..n + 1]).markers, lines[n + 1]);
    Unsnoc(Check(c, lines[..n]).markers, c.read(lines[n]).marker);
    CheckStops(c, lines, n + 2);
  }

  lemma Unlinked(c: Codec, front: seq<Bytes>, ms: seq<Marker>, line: Bytes)
    requires c.read(line).Good? && c.read(line).marker.previous != HashAfter(c, front)
    ensures CheckNext(c, front, ms, line).Corrupt? && CheckNext(c, front, ms, line).markers == DropLast(ms)
  {}

  lemma StrictPrefix<T>(s: seq<T>, i: nat, t: seq<T>)
    requires i < |s| && t <= s[..i]
    ensures t < s
  {
    assert t == s[..|t|];
  }

  /** Rewriting any one non-final line of a file that verifies makes verification fail, leaving a
      strict prefix of the original markers, unless the old and the new line collide. */
  lemma TamperEvident(c: Codec, lines: seq<Bytes>, i: nat, forged: Bytes)
    requires AllLines(lines) && Check(c, lines).Verified? && i + 1 < |lines|
    requires IsLine(forged) && forged != lines[i]
    ensures AllLines(lines[i := forged])
    ensures var v := Check(c, lines[i := forged]);
            || (v.Corrupt? && v.markers < Check(c, lines).markers)
            || Collides(c, lines[i], forged)
  {
    hide CheckNext;
    var bad, ms := lines[i := forged], Check(c, lines).markers;
    VerifiedPrefix(c, lines, i);
    VerifiedLink(c, lines, i + 1);
    assert bad[..i] == lines[..i] && lines[..i + 1][i] == lines[i];
    CheckStep(c, bad, i);
    if Check(c, bad[..i + 1]).Corrupt? {
      CheckStops(c, bad, i + 1);
      StrictPrefix(ms, i, Check(c, bad).markers);
    } else if !Collides(c, lines[i], forged) {
      WrongPrevious(c, bad, i);
      StrictPrefix(ms, i, Check(c, bad).markers);
    }
  }

  /** What equal heads of different files prove about the hash. */
  ghost predicate HashBroken(c: Codec, a: seq<Bytes>, b: seq<Bytes>) {
    || (exists x, y | x in a && y in b :: Collides(c, x, y))
    || (exists x | x in a + b :: c.sha(x) == c.genesis)
  }

  /** Files that verify with the same head hash are the same, or the hash is broken on their lines. */
  lemma {:induction false} HeadDeterminesFile(c: Codec, a: seq<Bytes>, b: seq<Bytes>)
    requires AllLines(a) && AllLines(b) && Check(c, a).Verified? && Check(c, b).Verified?
    requires HashAfter(c, a) == HashAfter(c, b)
    ensures a == b || HashBroken(c, a, b)
    decreases |a|
  {
    hide CheckNext;
    if a == [] || b == [] {
      if a != b {
        var x := if a == [] then b[|b| - 1] else a[|a| - 1];
        assert x in a + b && c.sha(x) == c.genesis;
      }
    } else {
      var x, y := a[|a| - 1], b[|b| - 1];
      if x != y {
        assert x in a && y in b && Collides(c, x, y);
      } else {
        var a', b' := a[..|a| - 1], b[..|b| - 1];
        VerifiedPrefix(c, a, |a| - 1);
        VerifiedPrefix(c, b, |b| - 1);
        VerifiedLink(c, a, |a| - 1);
        VerifiedLink(c, b, |b| - 1);
        HeadDeterminesFile(c, a', b');
        Snoc(a);
        Snoc(b);
        BrokenGrows(c, a', b', x);
      }
    }
  }

  lemma BrokenGrows(c: Codec, a: seq<Bytes>, b: seq<Bytes>, x: Bytes)
    ensures HashBroken(c, a, b) ==> HashBroken(c, a + [x], b + [x])
  {
    if HashBroken(c, a, b) {
      if y, z :| y in a && z in b && Collides(c, y, z) {
        assert y in a + [x] && z in b + [x];
      } else {
        var y :| y in a + b && c.sha(y) == c.genesis;
        assert y in (a + [x]) + (b + [x]);
      }
    }
  }
}
