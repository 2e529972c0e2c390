/** Appends whose write fails while the process lives on. */
module JournalFailures {
  import opened Journal
  import opened JournalProofs
  import opened Lines
  import opened Markers
  import opened Options
  import opened Sequences

  // A failed append may leave bytes behind the head. The next append goes on right behind them, and only a
  // verification or a restart looks at the file again.

  datatype WriteOp =
    | Fine(op: Op)
    | Fails(m: Marker, sync: bool, written: nat) // the write of an append throws after `written` bytes

  /** The journal with two facts about the past: whether a failed append left bytes that nothing has looked
      at since, and where the file ended when a line feed was written behind such bytes. */
  datatype Trace = Trace(s: State, dirty: bool, spoilt: Option<nat>)

  /** The state in which an append meets the file. */
  ghost function Ready(c: Codec, s: State, sync: bool): State {
    if s.headKnown || sync then s else AfterVerify(c, s).1
  }

  ghost function Wrote(c: Codec, t: Trace, s: State, m: Marker, fails: Option<nat>): Trace {
    var s' := AfterWrite(c, s, m, fails).1;
    if Refusal(s, m).Some? then t.(s := s')
    else
      var whole := fails.None? || fails.value >= |Line(c, m)|;
      Trace(s', t.dirty || (fails.Some? && fails.value > 0),
            if t.spoilt.None? && t.dirty && whole then Some(|Content(s')|) else t.spoilt)
  }

  ghost function Next(c: Codec, t: Trace, op: WriteOp): Trace {
    match op
    case Fine(Append(m)) => Wrote(c, t, Ready(c, t.s, false), m, None)
    case Fine(AppendSync(m)) => Wrote(c, t, t.s, m, None)
    case Fine(Verify) => Trace(AfterVerify(c, t.s).1, false, t.spoilt)
    case Fine(Crash(n)) =>
      Trace(Step(c, t.s, Crash(n)), false, if t.spoilt.Some? && t.spoilt.value <= n then t.spoilt else None)
    case Fails(m, sync, written) => Wrote(c, t, Ready(c, t.s, sync), m, Some(written))
  }

  ghost function Traced(c: Codec, ops: seq<WriteOp>): Trace {
    if ops == [] then Trace(Opened(c, None, []), false, None)
    else Next(c, Traced(c, ops[..|ops| - 1]), ops[|ops| - 1])
  }

  /** The beginning of a marker's line, more bytes without a line feed, and the line of a marker. */
  function Splice(c: Codec, m1: Marker, n: nat, q: Bytes, m: Marker): Bytes { Part(Line(c, m1), n) + q + Line(c, m) }

  /** Such a line is no marker: in JSON the object that its first brace opens is never closed. */
  ghost predicate SpliceProof(c: Codec) {
    forall m1, n, q, m | WellFormed(m1) && WellFormed(m) && 0 < n < |Line(c, m1)| && LF !in q ::
      !c.read(Splice(c, m1, n, q, m)).Good?
  }

  ghost predicate Begun(c: Codec, tail: Bytes) {
    exists m1, n, q | WellFormed(m1) && 0 < n < |Line(c, m1)| && LF !in q :: tail == Part(Line(c, m1), n) + q
  }

  // ---------- what a run keeps ----------

  /** The marker goes behind these. */
  predicate Follows(c: Codec, lines: seq<Bytes>, ms: seq<Marker>, m: Marker) {
    WellFormed(m) && m.tx == |ms| + 1 && m.previous == HashAfter(c, lines)
  }

  function LinesWith(c: Codec, lines: seq<Bytes>, extra: Option<Marker>): seq<Bytes> {
    if extra.Some? then lines + [Line(c, extra.value)] else lines
  }

  function MarkersWith(ms: seq<Marker>, extra: Option<Marker>): seq<Marker> {
    if extra.Some? then ms + [extra.value] else ms
  }

  /** Behind the lines the head knows, a failed append left a whole line or the beginning of one. */
  ghost predicate Dangling(c: Codec, s: State, lines: seq<Bytes>, ms: seq<Marker>, extra: Option<Marker>, tail: Bytes) {
    && Chain(c, lines, ms) && (extra.Some? ==> Follows(c, lines, ms, extra.value))
    && s.headKnown && s.readOnly == None && s.head == Head(TxAfter(ms), HashAfter(c, lines))
    && Content(s) == Join(LinesWith(c, lines, extra)) + tail && LF !in tail
    && (tail != [] ==> Begun(c, tail)) && (extra.None? ==> tail != [])
  }

  ghost predicate Loose(c: Codec, t: Trace, lines: seq<Bytes>, ms: seq<Marker>, extra: Option<Marker>, tail: Bytes) {
    if t.dirty then Dangling(c, t.s, lines, ms, extra, tail) else extra == None && Sound(c, t.s, lines, ms, tail)
  }

  /** The file begins with a chain and a line that cannot follow it; that line ends at `end`. */
  ghost predicate Spoilt(c: Codec, s: State, end: nat, front: seq<Bytes>, ms: seq<Marker>, bad: Bytes) {
    && Chain(c, front, ms) && AllLines(front + [bad]) && Check(c, front + [bad]).Corrupt?
    && end == |Join(front + [bad])| && Join(front + [bad]) <= Content(s)
  }

  lemma SoundIsChain(c: Codec, s: State, lines: seq<Bytes>, ms: seq<Marker>, tail: Bytes)
    requires Sound(c, s, lines, ms, tail)
    ensures Chain(c, lines, ms) && |lines| == |ms|
  {}

  lemma VerifyForgets(c: Codec, s: State)
    ensures AfterVerify(c, s) == AfterVerify(c, s.(headKnown := false))
  {
    SplitJoins(Content(s));
  }

  /** What dangles is a chain with a torn tail to anything that reads the file afresh. */
  lemma DanglingIsSound(c: Codec, s: State, lines: seq<Bytes>, ms: seq<Marker>, extra: Option<Marker>, tail: Bytes)
    requires Dangling(c, s, lines, ms, extra, tail)
    ensures Sound(c, s.(headKnown := false), LinesWith(c, lines, extra), MarkersWith(ms, extra), tail)
  {
    hide Chain, Begun;
    if extra.Some? { ChainPush(c, lines, ms, extra.value); }
  }

  lemma LooseIsSound(c: Codec, t: Trace, lines: seq<Bytes>, ms: seq<Marker>, extra: Option<Marker>, tail: Bytes)
    requires Loose(c, t, lines, ms, extra, tail)
    ensures Sound(c, t.s.(headKnown := false), LinesWith(c, lines, extra), MarkersWith(ms, extra), tail)
  {
    hide Chain;
    if t.dirty { DanglingIsSound(c, t.s, lines, ms, extra, tail); }
  }

  lemma VerifyLoose(c: Codec, t: Trace, lines: seq<Bytes>, ms: seq<Marker>, extra: Option<Marker>, tail: Bytes)
    requires Faithful(c) && Loose(c, t, lines, ms, extra, tail)
    ensures var (r, s') := AfterVerify(c, t.s);
            && r == OkResult(MarkersWith(ms, extra), Torn(tail)) && s'.headKnown
            && Sound(c, s', LinesWith(c, lines, extra), MarkersWith(ms, extra), [])
  {
    hide Sound, AfterVerify, Loose;
    LooseIsSound(c, t, lines, ms, extra, tail);
    VerifyForgets(c, t.s);
    VerifySound(c, t.s.(headKnown := false), LinesWith(c, lines, extra), MarkersWith(ms, extra), tail);
  }

  lemma LineStarts(c: Codec, m: Marker, n: nat)
    requires Faithful(c) && WellFormed(m) && n < |Line(c, m)|
    ensures LF !in Part(Line(c, m), n)
  {
    ReadsBack(c, m);
    var line := Line(c, m);
    assert line[..n] <= line[..|line| - 1];
  }

  /** More bytes of a line behind a tail that may be empty. */
  lemma TailGrows(c: Codec, tail: Bytes, m: Marker, n: nat)
    requires Faithful(c) && WellFormed(m) && n < |Line(c, m)| && LF !in tail && (tail != [] ==> Begun(c, tail))
    ensures var more := tail + Part(Line(c, m), n);
            LF !in more && (more != [] ==> Begun(c, more))
  {
    var part := Part(Line(c, m), n);
    LineStarts(c, m, n);
    if tail == [] {
      AddNil(part);
      if n > 0 { assert tail + part == Part(Line(c, m), n) + []; }
    } else {
      var m1, k, q :| WellFormed(m1) && 0 < k < |Line(c, m1)| && LF !in q && tail == Part(Line(c, m1), k) + q;
      Assoc(Part(Line(c, m1), k), q, part);
      assert tail + part == Part(Line(c, m1), k) + (q + part);
    }
  }

  /** A marker behind lines that already have its number, or behind torn bytes, fails its check. */
  lemma SplicedFails(c: Codec, all: seq<Bytes>, every: seq<Marker>, tail: Bytes, m: Marker)
    requires Faithful(c) && SpliceProof(c) && WellFormed(m)
    requires if tail == [] then every != [] && m.tx <= every[|every| - 1].tx else Begun(c, tail)
    ensures CheckNext(c, all, every, tail + Line(c, m)).Corrupt?
  {
    hide WellFormed;
    var bad := tail + Line(c, m);
    if tail == [] {
      ReadsBack(c, m);
      AddNil(Line(c, m));
    } else {
      var m1, n, q :| WellFormed(m1) && 0 < n < |Line(c, m1)| && LF !in q && tail == Part(Line(c, m1), n) + q;
      assert bad == Splice(c, m1, n, q, m);
    }
  }

  /** A whole line behind bytes the head does not know cannot be verified. */
  lemma LineSpoils(c: Codec, s: State, lines: seq<Bytes>, ms: seq<Marker>, extra: Option<Marker>, tail: Bytes,
                   m: Marker)
    returns (bad: Bytes)
    requires Faithful(c) && SpliceProof(c) && Dangling(c, s, lines, ms, extra, tail) && Follows(c, lines, ms, m)
    ensures var s' := s.(file := Some(Content(s) + Line(c, m)));
            Spoilt(c, s', |Content(s')|, LinesWith(c, lines, extra), MarkersWith(ms, extra), bad)
  {
    hide Chain, WellFormed, CheckNext, Begun, SpliceProof, Faithful, Line;
    var all, every := LinesWith(c, lines, extra), MarkersWith(ms, extra);
    bad := tail + Line(c, m);
    DanglingIsSound(c, s, lines, ms, extra, tail);
    ChainVerifies(c, all, every);
    ReadsBack(c, m);
    BadLine(c, tail, m);
    SplicedFails(c, all, every, tail, m);
    Unsnoc(all, bad);
    JoinPush(all, bad);
    Assoc(Join(all), tail, Line(c, m));
  }

  lemma BadLine(c: Codec, tail: Bytes, m: Marker)
    requires LF !in tail && IsLine(Line(c, m))
    ensures IsLine(tail + Line(c, m))
  {
    var line := Line(c, m);
    assert (tail + line)[..|tail + line| - 1] == tail + line[..|line| - 1];
  }

  /** An append to a journal that is not spoilt. */
  lemma WriteLoose(c: Codec, t: Trace, lines: seq<Bytes>, ms: seq<Marker>, extra: Option<Marker>, tail: Bytes,
                   m: Marker, fails: Option<nat>)
    returns (lines': seq<Bytes>, ms': seq<Marker>, extra': Option<Marker>, tail': Bytes)
    requires Faithful(c) && SpliceProof(c) && t.spoilt.None? && Loose(c, t, lines, ms, extra, tail)
    ensures var t' := Wrote(c, t, t.s, m, fails);
            if t'.spoilt.None? then Loose(c, t', lines', ms', extra', tail')
            else Spoilt(c, t'.s, t'.spoilt.value, lines', ms', tail')
  {
    hide Chain, WellFormed, SpliceProof;
    lines', ms', extra', tail' := lines, ms, extra, tail;
    if Refusal(t.s, m).Some? { return; }
    var whole := fails.None? || fails.value >= |Line(c, m)|;
    HeadCounts(c, t, lines, ms, extra, tail);
    if t.dirty {
      if whole {
        lines', ms' := LinesWith(c, lines, extra), MarkersWith(ms, extra);
        tail' := LineSpoils(c, t.s, lines, ms, extra, tail, m);
        SpoiltStays(c, t.s.(file := Some(Content(t.s) + Line(c, m))), AfterWrite(c, t.s, m, fails).1,
          |Content(t.s) + Line(c, m)|, lines', ms', tail');
      } else {
        tail' := tail + Part(Line(c, m), fails.value);
        TailGrows(c, tail, m, fails.value);
        Assoc(Join(LinesWith(c, lines, extra)), tail, Part(Line(c, m), fails.value));
      }
    } else if fails.None? {
      AppendSound(c, t.s, lines, ms, m);
      lines', ms' := lines + [Line(c, m)], ms + [m];
    } else if whole {
      extra' := Some(m);
      AddNil(Join(lines));
      JoinPush(lines, Line(c, m));
      AddNil(Join(lines + [Line(c, m)]));
      LineNonEmpty(c, m);
    } else {
      tail' := Part(Line(c, m), fails.value);
      TailGrows(c, [], m, fails.value);
      AddNil(Join(lines));
      AddNil(tail');
    }
  }

  lemma LineNonEmpty(c: Codec, m: Marker)
    ensures |Line(c, m)| > 0
  {}

  lemma HeadCounts(c: Codec, t: Trace, lines: seq<Bytes>, ms: seq<Marker>, extra: Option<Marker>, tail: Bytes)
    requires Loose(c, t, lines, ms, extra, tail) && t.s.headKnown
    ensures NextTx(t.s) == |ms| + 1
  {
    LastTx(c, lines, ms, |ms|);
    assert ms[..|ms|] == ms;
  }

  lemma SpoiltStays(c: Codec, s: State, s': State, end: nat, front: seq<Bytes>, ms: seq<Marker>, bad: Bytes)
    requires Spoilt(c, s, end, front, ms, bad) && Content(s) <= Content(s')
    ensures Spoilt(c, s', end, front, ms, bad)
  {}

  /** A file that begins with some lines is cut into those and more. */
  lemma LinesFirst(lines: seq<Bytes>, b: Bytes)
    requires AllLines(lines) && Join(lines) <= b
    ensures lines <= Split(b).lines && Join(lines) <= Join(Split(b).lines)
  {
    var rest := b[|Join(lines)|..];
    assert b == Join(lines) + rest;
    SplitOfLines(lines);
    SplitAppend(Join(lines), rest);
    JoinAppend(lines, Split([] + rest).lines);
  }

  /** Verification reports a spoilt journal and leaves it as spoilt as it was. */
  lemma VerifySpoilt(c: Codec, s: State, end: nat, front: seq<Bytes>, ms: seq<Marker>, bad: Bytes)
    requires Spoilt(c, s, end, front, ms, bad)
    ensures AfterVerify(c, s).0.ReadOnlyResult? && Spoilt(c, AfterVerify(c, s).1, end, front, ms, bad)
  {
    hide Chain, CheckNext;
    var lines, cut := front + [bad], Split(Content(s));
    SplitJoins(Content(s));
    LinesFirst(lines, Content(s));
    JoinPush(front, bad);
    assert IsLine(lines[|front|]);
    CheckStops(c, cut.lines, |lines|);
    assert cut.lines[..|lines|] == lines;
  }

  /** A crash that reaches into the bad line leaves a chain and a torn line. */
  lemma CrashSpoilt(c: Codec, s: State, end: nat, front: seq<Bytes>, ms: seq<Marker>, bad: Bytes, n: nat)
    returns (lines': seq<Bytes>, ms': seq<Marker>, tail': Bytes)
    requires Faithful(c) && Spoilt(c, s, end, front, ms, bad) && n < end
    ensures Sound(c, Step(c, s, Crash(n)), lines', ms', tail')
  {
    hide Chain;
    assert IsLine((front + [bad])[|front|]);
    var body := bad[..|bad| - 1];
    var b := Join(front) + body;
    JoinPush(front, bad);
    assert Join(front + [bad])[..end - 1] == b;
    var s0 := Opened(c, Some(b), s.quarantine);
    assert Sound(c, s0, front, ms, body);
    var k;
    k, tail' := CrashSound(c, s0, front, ms, body, n);
    SoundIsChain(c, s0, front, ms, body);
    lines', ms' := front[..k], ms[..k];
    assert Kept(Content(s), n) == Kept(b, n) by {
      assert Content(s)[..n] == Join(front + [bad])[..n] == b[..n];
    }
  }

  ghost predicate Holds(c: Codec, t: Trace, lines: seq<Bytes>, ms: seq<Marker>, extra: Option<Marker>, tail: Bytes) {
    if t.spoilt.None? then Loose(c, t, lines, ms, extra, tail) else Spoilt(c, t.s, t.spoilt.value, lines, ms, tail)
  }

  lemma WriteHolds(c: Codec, t: Trace, lines: seq<Bytes>, ms: seq<Marker>, extra: Option<Marker>, tail: Bytes,
                   m: Marker, fails: Option<nat>, sync: bool)
    returns (lines': seq<Bytes>, ms': seq<Marker>, extra': Option<Marker>, tail': Bytes)
    requires Faithful(c) && SpliceProof(c) && Holds(c, t, lines, ms, extra, tail) && (t.dirty ==> t.s.headKnown)
    ensures Holds(c, Wrote(c, t, Ready(c, t.s, sync), m, fails), lines', ms', extra', tail')
  {
    hide Loose, Spoilt, AfterVerify, Chain, SpliceProof, Faithful;
    var s := Ready(c, t.s, sync);
    if t.spoilt.Some? {
      lines', ms', extra', tail' := lines, ms, extra, tail;
      VerifySpoilt(c, t.s, t.spoilt.value, lines, ms, tail);
      SpoiltStays(c, s, AfterWrite(c, s, m, fails).1, t.spoilt.value, lines, ms, tail);
    } else if s == t.s {
      lines', ms', extra', tail' := WriteLoose(c, t, lines, ms, extra, tail, m, fails);
    } else {
      VerifyLoose(c, t, lines, ms, extra, tail);
      var u := t.(s := s);
      CleanLoose(c, u, LinesWith(c, lines, extra), MarkersWith(ms, extra));
      lines', ms', extra', tail' :=
        WriteLoose(c, u, LinesWith(c, lines, extra), MarkersWith(ms, extra), None, [], m, fails);
    }
  }

  lemma CleanLoose(c: Codec, t: Trace, lines: seq<Bytes>, ms: seq<Marker>)
    requires Sound(c, t.s, lines, ms, []) && !t.dirty
    ensures Loose(c, t, lines, ms, None, [])
  {}

  lemma NextHolds(c: Codec, t: Trace, lines: seq<Bytes>, ms: seq<Marker>, extra: Option<Marker>, tail: Bytes,
                  op: WriteOp)
    returns (lines': seq<Bytes>, ms': seq<Marker>, extra': Option<Marker>, tail': Bytes)
    requires Faithful(c) && SpliceProof(c) && Holds(c, t, lines, ms, extra, tail) && (t.dirty ==> t.s.headKnown)
    ensures var t' := Next(c, t, op); Holds(c, t', lines', ms', extra', tail') && (t'.dirty ==> t'.s.headKnown)
  {
    hide Sound, Dangling, Spoilt, AfterVerify, Chain, SpliceProof, Faithful;
    match op {
      case Fine(Append(m)) => lines', ms', extra', tail' := WriteHolds(c, t, lines, ms, extra, tail, m, None, false);
      case Fine(AppendSync(m)) => lines', ms', extra', tail' := WriteHolds(c, t, lines, ms, extra, tail, m, None, true);
      case Fails(m, sync, n) =>
        lines', ms', extra', tail' := WriteHolds(c, t, lines, ms, extra, tail, m, Some(n), sync);
      case Fine(Verify) =>
        lines', ms', extra', tail' := lines, ms, None, tail;
        if t.spoilt.Some? {
          VerifySpoilt(c, t.s, t.spoilt.value, lines, ms, tail);
        } else {
          VerifyLoose(c, t, lines, ms, extra, tail);
          lines', ms', tail' := LinesWith(c, lines, extra), MarkersWith(ms, extra), [];
        }
      case Fine(Crash(n)) =>
        lines', ms', extra', tail' := lines, ms, None, tail;
        if t.spoilt.None? {
          var k;
          LooseIsSound(c, t, lines, ms, extra, tail);
          k, tail' :=
            CrashSound(c, t.s.(headKnown := false), LinesWith(c, lines, extra), MarkersWith(ms, extra), tail, n);
          SoundIsChain(c, t.s.(headKnown := false), LinesWith(c, lines, extra), MarkersWith(ms, extra), tail);
          lines', ms' := LinesWith(c, lines, extra)[..k], MarkersWith(ms, extra)[..k];
        } else if n < t.spoilt.value {
          lines', ms', tail' := CrashSpoilt(c, t.s, t.spoilt.value, lines, ms, tail, n);
        } else {
          CrashBehind(c, t.s, t.spoilt.value, lines, ms, tail, n);
        }
    }
  }

  lemma CrashBehind(c: Codec, s: State, end: nat, front: seq<Bytes>, ms: seq<Marker>, bad: Bytes, n: nat)
    requires Spoilt(c, s, end, front, ms, bad) && end <= n
    ensures Spoilt(c, Step(c, s, Crash(n)), end, front, ms, bad)
  {}

  lemma {:induction false} TracedHolds(c: Codec, ops: seq<WriteOp>)
    returns (lines: seq<Bytes>, ms: seq<Marker>, extra: Option<Marker>, tail: Bytes)
    requires Faithful(c) && SpliceProof(c)
    ensures var t := Traced(c, ops); Holds(c, t, lines, ms, extra, tail) && (t.dirty ==> t.s.headKnown)
  {
    hide Next, SpliceProof, Faithful;
    if ops == [] {
      lines, ms, extra, tail := [], [], None, [];
    } else {
      var front := ops[..|ops| - 1];
      lines, ms, extra, tail := TracedHolds(c, front);
      lines, ms, extra, tail := NextHolds(c, Traced(c, front), lines, ms, extra, tail, ops[|ops| - 1]);
    }
  }

  /** Over every run of appends that succeed or fail at any byte, verifications and crashes: verification
      answers OK, with the gap-free chain of the complete lines, if and only if no line feed was written
      behind the bytes of a failed append before a verification or a restart, or a crash has since cut the
      file before that line feed. */
  lemma CorruptIff(c: Codec, ops: seq<WriteOp>)
    requires Faithful(c) && SpliceProof(c)
    ensures var t := Traced(c, ops);
            var r := AfterVerify(c, t.s).0;
            && (r.OkResult? <==> t.spoilt.None?)
            && (r.OkResult? ==> Chain(c, Split(Content(t.s)).lines, r.markers))
  {
    hide Chain, SpliceProof, Faithful, Loose, Spoilt, AfterVerify;
    var t := Traced(c, ops);
    var lines, ms, extra, tail := TracedHolds(c, ops);
    if t.spoilt.None? {
      VerifyLoose(c, t, lines, ms, extra, tail);
      LooseIsSound(c, t, lines, ms, extra, tail);
      SoundCut(c, t.s.(headKnown := false), LinesWith(c, lines, extra), MarkersWith(ms, extra), tail);
      SoundIsChain(c, t.s.(headKnown := false), LinesWith(c, lines, extra), MarkersWith(ms, extra), tail);
    } else {
      VerifySpoilt(c, t.s, t.spoilt.value, lines, ms, tail);
    }
  }

  /** It happens: the first append fails with bytes in the file, and the second goes on behind them. */
  lemma FailedAppendCorrupts(c: Codec, m1: Marker, m2: Marker, written: nat)
    requires Faithful(c) && SpliceProof(c) && written > 0
    requires Follows(c, [], [], m1) && Follows(c, [], [], m2)
    ensures var t := Traced(c, [Fails(m1, false, written), Fine(Append(m2))]);
            AfterVerify(c, t.s).0.ReadOnlyResult?
  {
    hide WellFormed, Faithful, SpliceProof;
    var s0 := Opened(c, None, []);
    var s1 := AfterVerify(c, s0).1;
    var first, both := [Fails(m1, false, written)], [Fails(m1, false, written), Fine(Append(m2))];
    assert both[..1] == first && first[..0] == [];
    assert s1 == s0.(headKnown := true) && Refusal(s1, m1).None?;
    var s2 := AfterWrite(c, s1, m1, Some(written)).1;
    assert Traced(c, []) == Trace(s0, false, None);
    assert Traced(c, first) == Trace(s2, true, None);
    assert Ready(c, s2, false) == s2 && Refusal(s2, m2).None?;
    assert Traced(c, both).spoilt.Some?;
    CorruptIff(c, both);
  }

  // ---------- a journal that is read-only ----------

  /** What an append answers; None for the other steps. */
  ghost function Answer(c: Codec, s: State, op: WriteOp): Option<Outcome<Head>> {
    match op
    case Fine(Append(m)) => Some(AfterWrite(c, Ready(c, s, false), m, None).0)
    case Fine(AppendSync(m)) => Some(AfterWrite(c, s, m, None).0)
    case Fails(m, sync, written) => Some(AfterWrite(c, Ready(c, s, sync), m, Some(written)).0)
    case _ => None
  }

  ghost function Continued(c: Codec, t: Trace, ops: seq<WriteOp>): Trace {
    if ops == [] then t else Next(c, Continued(c, t, ops[..|ops| - 1]), ops[|ops| - 1])
  }

  predicate IsAppend(op: WriteOp) { op.Fails? || op.op.Append? || op.op.AppendSync? }

  /** From a verification that answers READ_ONLY until the next verification or restart: every append of either
      form, whatever becomes of writes, is answered with READ_ONLY, and the file stays as it is. */
  lemma {:induction false} ReadOnlyRefuses(c: Codec, t: Trace, ops: seq<WriteOp>, last: WriteOp)
    requires AfterVerify(c, t.s).0.ReadOnlyResult?
    requires IsAppend(last) && forall k | 0 <= k < |ops| :: IsAppend(ops[k])
    ensures var after := Next(c, t, Fine(Verify));
            var s := Continued(c, after, ops).s;
            && s == after.s && Answer(c, s, last) == Some(Threw(ReadOnlyError))
            && Next(c, Continued(c, after, ops), last).s == s
  {
    VerifyReadOnly(c, t.s);
    hide AfterVerify;
    if ops != [] {
      ReadOnlyRefuses(c, t, ops[..|ops| - 1], ops[|ops| - 1]);
    }
  }

  lemma VerifyReadOnly(c: Codec, s: State)
    requires AfterVerify(c, s).0.ReadOnlyResult?
    ensures AfterVerify(c, s).1.headKnown && AfterVerify(c, s).1.readOnly.Some?
  {}

  /** A malformed JSON line followed by a line feed is such a file. */
  lemma UnreadableIsReadOnly(c: Codec, line: Bytes)
    requires IsLine(line) && c.read(line).NotJson?
    ensures AfterVerify(c, Opened(c, Some(line), [])).0 == ReadOnlyResult("#1", Unparseable, [])
  {
    assert [line][..0] == [] && Join([line]) == [] + line == line;
    SplitOfLines([line]);
    assert Check(c, []) == Verified([]);
  }
}
