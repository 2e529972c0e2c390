/** The incremental reader of a growing JSONL file, as steps between its suspension points. */
module TailReader {
  import opened Lines
  import opened Sequences

  /** What `parseJsonlLine` makes of a line. */
  datatype Parsed<+E> = Empty | Bad | Event(event: E)

  /** A running pass waits for the size of the file, or for the bytes up to a size it has seen. */
  datatype Pass = AwaitStat | AwaitRead(size: nat)

  /** The closure's variables, the passes in flight, and what has been done with lines so far:
      `handled` in order, `skipped` counting those dropped because a handler threw. */
  datatype State<+E> = State(offset: nat, buffer: Bytes, reading: bool, queued: bool, closed: bool,
                             passes: seq<Pass>, handled: seq<Bytes>, skipped: nat,
                             emitted: seq<E>, parseErrors: nat)

  datatype Op =
    | Notify                                        // the watcher or the poll interval calls `readNew`
    | StatDone(i: nat, ok: bool)                    // pass i learns the size of the file, or fails to
    | ReadDone(i: nat, ok: bool, throwsAt: int)     // pass i has its bytes, or the read threw; the handler
                                                    // throws on the event of line `throwsAt` of the chunk
    | Close
    | Append(bytes: Bytes)

  function Initial<E>(): State<E> { State(0, [], false, false, false, [], [], 0, [], 0) }

  function Text(line: Bytes): Bytes { if line == [] then [] else line[..|line| - 1] }

  function Events<E>(parse: Bytes -> Parsed<E>, lines: seq<Bytes>): seq<E> {
    if lines == [] then []
    else
      Events(parse, lines[..|lines| - 1])
      + match parse(Text(lines[|lines| - 1])) case Event(e) => [e] case _ => []
  }

  function Errors<E>(parse: Bytes -> Parsed<E>, lines: seq<Bytes>): nat {
    if lines == [] then 0
    else Errors(parse, lines[..|lines| - 1]) + if parse(Text(lines[|lines| - 1])).Bad? then 1 else 0
  }

  predicate Throws<E>(parse: Bytes -> Parsed<E>, lines: seq<Bytes>, throwsAt: int) {
    0 <= throwsAt < |lines| && parse(Text(lines[throwsAt])).Event?
  }

  /** Pass i is over. */
  function Ended<E>(s: State<E>, i: nat): State<E>
    requires i < |s.passes|
  {
    s.(passes := s.passes[..i] + s.passes[i + 1..], reading := false)
  }

  /** The loop condition: go round again, or end the pass. */
  function LoopOrEnd<E>(s: State<E>, i: nat): State<E>
    requires i < |s.passes|
  {
    if s.queued && !s.closed then s.(queued := false, passes := s.passes[i := AwaitStat]) else Ended(s, i)
  }

  function Notified<E>(s: State<E>): State<E> {
    if s.closed then s
    else if s.reading then s.(queued := true)
    else s.(reading := true, queued := false, passes := s.passes + [AwaitStat])
  }

  function Sized<E>(s: State<E>, i: nat, size: nat): State<E>
    requires i < |s.passes|
  {
    var s := if size < s.offset then s.(offset := 0, buffer := []) else s;
    if size == s.offset then LoopOrEnd(s, i) else s.(passes := s.passes[i := AwaitRead(size)])
  }

  /** The complete lines of the buffer are handled in order; its rest is kept. */
  function Consumed<E>(parse: Bytes -> Parsed<E>, s: State<E>, size: nat, chunk: Bytes, throwsAt: int): State<E> {
    var cut := Split(s.buffer + chunk);
    var done := if Throws(parse, cut.lines, throwsAt) then cut.lines[..throwsAt + 1] else cut.lines;
    s.(offset := size, buffer := cut.tail, handled := s.handled + done, skipped := s.skipped + |cut.lines| - |done|,
       emitted := s.emitted + Events(parse, done), parseErrors := s.parseErrors + Errors(parse, done))
  }

  function Received<E>(parse: Bytes -> Parsed<E>, s: State<E>, i: nat, chunk: Bytes, throwsAt: int): State<E>
    requires i < |s.passes| && s.passes[i].AwaitRead?
  {
    if s.closed then Ended(s, i)
    else
      var s' := Consumed(parse, s, s.passes[i].size, chunk, throwsAt);
      if Throws(parse, Split(s.buffer + chunk).lines, throwsAt) then Ended(s', i) else LoopOrEnd(s', i)
  }

  /** The bytes of the file a pass asks for: those past the offset, up to the size it saw. */
  function Chunk(file: Bytes, offset: nat, size: nat): Bytes
    requires offset <= size <= |file|
  {
    file[offset..size]
  }

  /** Can this happen now? Appends can always happen. */
  predicate Enabled<E>(file: Bytes, s: State<E>, op: Op) {
    match op
    case StatDone(i, _) => i < |s.passes| && s.passes[i].AwaitStat?
    case ReadDone(i, _, _) => i < |s.passes| && s.passes[i].AwaitRead? && s.offset <= s.passes[i].size <= |file|
    case _ => true
  }

  function Step<E>(parse: Bytes -> Parsed<E>, file: Bytes, s: State<E>, op: Op): (Bytes, State<E>)
    requires Enabled(file, s, op)
  {
    match op
    case Append(bytes) => (file + bytes, s)
    case Notify => (file, Notified(s))
    case Close => (file, s.(closed := true))
    case StatDone(i, ok) => (file, if ok then Sized(s, i, |file|) else LoopOrEnd(s, i))
    case ReadDone(i, ok, throwsAt) =>
      (file, if ok then Received(parse, s, i, Chunk(file, s.offset, s.passes[i].size), throwsAt) else Ended(s, i))
  }

  lemma EventsNext<E>(parse: Bytes -> Parsed<E>, lines: seq<Bytes>, k: nat)
    requires k < |lines|
    ensures Events(parse, lines[..k + 1])
            == Events(parse, lines[..k]) + match parse(Text(lines[k])) case Event(e) => [e] case _ => []
    ensures Errors(parse, lines[..k + 1])
            == Errors(parse, lines[..k]) + if parse(Text(lines[k])).Bad? then 1 else 0
  {
    assert lines[..k + 1][..k] == lines[..k];
  }

  // ---------- the reader object ----------

  class Reader<E> {
    const parse: Bytes -> Parsed<E>
    var offset: nat
    var buffer: Bytes
    var reading: bool
    var queued: bool
    var closed: bool
    var passes: seq<Pass>
    var emitted: seq<E>
    var parseErrors: nat
    ghost var handled: seq<Bytes>
    ghost var skipped: nat

    constructor (parse: Bytes -> Parsed<E>)
      ensures this.parse == parse && Now() == Initial()
    {
      this.parse := parse;
      offset, buffer, reading, queued, closed := 0, [], false, false, false;
      passes, emitted, parseErrors, handled, skipped := [], [], 0, [], 0;
    }

    ghost function Now(): State<E>
      reads this
    {
      State(offset, buffer, reading, queued, closed, passes, handled, skipped, emitted, parseErrors)
    }

    method ReadNew()
      modifies this
      ensures Now() == Notified(old(Now()))
    {
      if closed { return; }
      if reading {
        queued := true;
        return;
      }
      reading, queued := true, false;
      passes := passes + [AwaitStat];
    }

    method End(i: nat)
      requires i < |passes|
      modifies this`passes, this`reading
      ensures Now() == Ended(old(Now()), i)
    {
      passes := passes[..i] + passes[i + 1..];
      reading := false;
    }

    method Again(i: nat)
      requires i < |passes|
      modifies this`passes, this`reading, this`queued
      ensures Now() == LoopOrEnd(old(Now()), i)
    {
      if queued && !closed {
        queued := false;
        passes := passes[i := AwaitStat];
      } else {
        End(i);
      }
    }

    /** A negative size stands for a stat that failed. */
    method OnStat(i: nat, size: int)
      requires i < |passes|
      modifies this`passes, this`reading, this`queued, this`offset, this`buffer
      ensures Now() == if size < 0 then LoopOrEnd(old(Now()), i) else Sized(old(Now()), i, size)
    {
      if size < 0 {
        Again(i);
        return;
      }
      if size < offset { offset, buffer := 0, []; }
      if size == offset {
        Again(i);
      } else {
        passes := passes[i := AwaitRead(size)];
      }
    }

    method OnRead(i: nat, chunk: Bytes, throwsAt: int)
      requires i < |passes| && passes[i].AwaitRead?
      modifies this
      ensures Now() == Received(parse, old(Now()), i, chunk, throwsAt)
    {
      if closed {
        End(i);
        return;
      }
      offset := passes[i].size;
      var lines, rest := SplitBuffer(buffer + chunk);
      buffer := rest;
      var threw := Handle(lines, throwsAt);
      if threw {
        End(i);
      } else {
        Again(i);
      }
    }

    /** Splits at line feeds; the last part is not a line yet. */
    static method SplitBuffer(b: Bytes) returns (lines: seq<Bytes>, rest: Bytes)
      ensures Split(b) == Cut(lines, rest)
    {
      lines, rest := [], [];
      for k := 0 to |b|
        invariant Split(b[..k]) == Cut(lines, rest)
      {
        FeedLast(b[..k], b[k]);
        Snoc(b[..k + 1]);
        assert b[..k + 1][..k] == b[..k];
        if b[k] == LF {
          lines, rest := lines + [rest + [b[k]]], [];
        } else {
          rest := rest + [b[k]];
        }
      }
      assert b[..|b|] == b;
    }

    method Handle(lines: seq<Bytes>, throwsAt: int) returns (threw: bool)
      modifies this`emitted, this`parseErrors, this`handled, this`skipped
      ensures threw == Throws(parse, lines, throwsAt)
      ensures var done := if threw then lines[..throwsAt + 1] else lines;
              && handled == old(handled) + done && skipped == old(skipped) + |lines| - |done|
              && emitted == old(emitted) + Events(parse, done)
              && parseErrors == old(parseErrors) + Errors(parse, done)
    {
      for k := 0 to |lines|
        invariant handled == old(handled) + lines[..k] && skipped == old(skipped)
        invariant emitted == old(emitted) + Events(parse, lines[..k])
        invariant parseErrors == old(parseErrors) + Errors(parse, lines[..k])
        invariant 0 <= throwsAt < k ==> !parse(Text(lines[throwsAt])).Event?
      {
        hide Text, Events, Errors;
        EventsNext(parse, lines, k);
        handled := handled + [lines[k]];
        match parse(Text(lines[k])) {
          case Empty =>
          case Bad => parseErrors := parseErrors + 1;
          case Event(e) =>
            emitted := emitted + [e];
            if k == throwsAt {
              skipped := skipped + |lines| - (k + 1);
              return true;
            }
        }
      }
      assert lines[..|lines|] == lines;
      return false;
    }

    method Close()
      modifies this`closed
      ensures Now() == old(Now()).(closed := true)
    {
      closed := true;
    }
  }

  // ---------- every run on a file that is only appended to ----------

  /** Something that cannot happen now does not. */
  function Next<E>(parse: Bytes -> Parsed<E>, w: (Bytes, State<E>), op: Op): (Bytes, State<E>) {
    if Enabled(w.0, w.1, op) then Step(parse, w.0, w.1, op) else w
  }

  function Run<E>(parse: Bytes -> Parsed<E>, ops: seq<Op>): (Bytes, State<E>) {
    if ops == [] then ([], Initial()) else Next(parse, Run(parse, ops[..|ops| - 1]), ops[|ops| - 1])
  }

  /** The reader stands for the batch cut of the bytes before its offset. */
  ghost predicate Tracks<E>(parse: Bytes -> Parsed<E>, seen: Cut, s: State<E>) {
    && s.buffer == seen.tail
    && |s.handled| + s.skipped == |seen.lines|
    && (s.skipped == 0 ==> s.handled == seen.lines)
    && s.emitted == Events(parse, s.handled) && s.parseErrors == Errors(parse, s.handled)
  }

  ghost predicate Inv<E>(parse: Bytes -> Parsed<E>, file: Bytes, s: State<E>) {
    && s.offset <= |file| && Tracks(parse, Split(file[..s.offset]), s)
    && |s.passes| == (if s.reading then 1 else 0)
    && (|s.passes| == 1 && s.passes[0].AwaitRead? ==> s.offset < s.passes[0].size <= |file|)
  }

  lemma {:induction false} EventsAppend<E>(parse: Bytes -> Parsed<E>, a: seq<Bytes>, b: seq<Bytes>)
    ensures Events(parse, a + b) == Events(parse, a) + Events(parse, b)
    ensures Errors(parse, a + b) == Errors(parse, a) + Errors(parse, b)
  {
    if b == [] {
      AddNil(a);
      AddNil(Events(parse, a));
    } else {
      var front, l := b[..|b| - 1], b[|b| - 1];
      EventsAppend(parse, a, front);
      Snoc(b);
      Assoc(a, front, [l]);
      Unsnoc(a + front, l);
      Assoc(Events(parse, a), Events(parse, front), match parse(Text(l)) case Event(e) => [e] case _ => []);
    }
  }

  /** Handling a chunk moves the reader from the cut of `before` to the cut of `before + chunk`. */
  lemma ConsumedTracks<E>(parse: Bytes -> Parsed<E>, before: Bytes, s: State<E>, size: nat, chunk: Bytes, throwsAt: int)
    requires Tracks(parse, Split(before), s)
    ensures Tracks(parse, Split(before + chunk), Consumed(parse, s, size, chunk, throwsAt))
  {
    SplitAppend(before, chunk);
    var cut := Split(s.buffer + chunk);
    var done := if Throws(parse, cut.lines, throwsAt) then cut.lines[..throwsAt + 1] else cut.lines;
    EventsAppend(parse, s.handled, done);
    if |done| == |cut.lines| {
      assert done == cut.lines;
    }
  }

  lemma {:induction false} StepInv<E>(parse: Bytes -> Parsed<E>, file: Bytes, s: State<E>, op: Op)
    requires Inv(parse, file, s) && Enabled(file, s, op)
    ensures var (file', s') := Step(parse, file, s, op); Inv(parse, file', s') && file <= file'
  {
    match op {
      case Append(bytes) => assert (file + bytes)[..s.offset] == file[..s.offset];
      case Notify =>
      case Close =>
      case StatDone(i, ok) =>
      case ReadDone(i, ok, throwsAt) =>
        var size := s.passes[i].size;
        assert file[..size] == file[..s.offset] + Chunk(file, s.offset, size);
        ConsumedTracks(parse, file[..s.offset], s, size, Chunk(file, s.offset, size), throwsAt);
    }
  }

  lemma {:induction false} RunInv<E>(parse: Bytes -> Parsed<E>, ops: seq<Op>)
    ensures var (file, s) := Run(parse, ops); Inv(parse, file, s)
  {
    if ops != [] {
      var front := ops[..|ops| - 1];
      RunInv(parse, front);
      var w := Run(parse, front);
      if Enabled(w.0, w.1, ops[|ops| - 1]) {
        StepInv(parse, w.0, w.1, ops[|ops| - 1]);
      }
    }
  }

  ghost predicate HandlerReturns(ops: seq<Op>) {
    forall j | 0 <= j < |ops| && ops[j].ReadDone? :: ops[j].throwsAt < 0
  }

  lemma {:induction false} NothingSkipped<E>(parse: Bytes -> Parsed<E>, ops: seq<Op>)
    requires HandlerReturns(ops)
    ensures Run(parse, ops).1.skipped == 0
  {
    if ops != [] {
      NothingSkipped(parse, ops[..|ops| - 1]);
    }
  }

  /** However appends, notifications and passes interleave, at most one pass runs, and while the
      handler returns, the lines handled are the complete lines of the first `offset` bytes of the
      file, once each and in order; the buffer is the rest. */
  lemma TailEqualsBatch<E>(parse: Bytes -> Parsed<E>, ops: seq<Op>)
    requires HandlerReturns(ops)
    ensures var (file, s) := Run(parse, ops);
            && |s.passes| <= 1 && s.offset <= |file|
            && Split(file[..s.offset]) == Cut(s.handled, s.buffer)
            && s.emitted == Events(parse, s.handled) && s.parseErrors == Errors(parse, s.handled)
  {
    RunInv(parse, ops);
    NothingSkipped(parse, ops);
  }

  /** The handler throws with lines of the chunk still to come. */
  predicate Drops<E>(parse: Bytes -> Parsed<E>, w: (Bytes, State<E>), op: Op) {
    && op.ReadDone? && Enabled(w.0, w.1, op) && op.ok && !w.1.closed
    && var lines := Split(w.1.buffer + Chunk(w.0, w.1.offset, w.1.passes[op.i].size)).lines;
       Throws(parse, lines, op.throwsAt) && op.throwsAt + 1 < |lines|
  }

  ghost predicate DropsAt<E>(parse: Bytes -> Parsed<E>, ops: seq<Op>, k: nat)
    requires k < |ops|
  {
    Drops(parse, Run(parse, ops[..k]), ops[k])
  }

  /** Handlers that throw: the lines handled are the complete lines exactly when no chunk had lines
      left after a throw. */
  lemma {:induction false} HandledExactly<E>(parse: Bytes -> Parsed<E>, ops: seq<Op>)
    ensures var (file, s) := Run(parse, ops);
            && s.offset <= |file|
            && (s.handled == Split(file[..s.offset]).lines <==> forall k | 0 <= k < |ops| :: !DropsAt(parse, ops, k))
  {
    RunInv(parse, ops);
    SkippedExactly(parse, ops);
  }

  lemma {:induction false} SkippedExactly<E>(parse: Bytes -> Parsed<E>, ops: seq<Op>)
    ensures Run(parse, ops).1.skipped == 0 <==> forall k | 0 <= k < |ops| :: !DropsAt(parse, ops, k)
  {
    if ops != [] {
      var n := |ops| - 1;
      SkippedExactly(parse, ops[..n]);
      forall k | 0 <= k < n ensures DropsAt(parse, ops, k) == DropsAt(parse, ops[..n], k) {
        assert ops[..n][..k] == ops[..k];
      }
      SkipStep(parse, Run(parse, ops[..n]), ops[n]);
      assert DropsAt(parse, ops, n) == Drops(parse, Run(parse, ops[..n]), ops[n]);
    }
  }

  lemma SkipStep<E>(parse: Bytes -> Parsed<E>, w: (Bytes, State<E>), op: Op)
    ensures w.1.skipped <= Next(parse, w, op).1.skipped
    ensures w.1.skipped < Next(parse, w, op).1.skipped <==> Drops(parse, w, op)
  {}

  /** It happens: two events in one read and a handler that throws on the first. */
  lemma ThrowLosesALine(e: nat)
    ensures var parse: Bytes -> Parsed<nat> := _ => Event(e);
            var (file, s) := Run(parse, [Append([LF] + [LF]), Notify, StatDone(0, true), ReadDone(0, true, 0)]);
            s.offset == |file| && Split(file).lines == [[LF], [LF]] && s.handled == [[LF]]
  {
    hide Run, Split;
    var parse: Bytes -> Parsed<nat> := _ => Event(e);
    var file: Bytes := [LF] + [LF];
    var lines: seq<Bytes> := [[LF], [LF]];
    assert lines[..1] == [[LF]];
    assert [] + [LF] == [LF] && [] + [[LF]] == [[LF]] && [[LF]] + [[LF]] == lines;
    SplitOfLines([]);
    LineAfterLines([], [], [LF]);
    LineAfterLines([LF], [[LF]], [LF]);
    assert [] + file == file && Chunk(file, 0, 2) == file;
    var w1 := Next(parse, ([], Initial()), Append(file));
    var w2 := Next(parse, w1, Notify);
    var w3 := Next(parse, w2, StatDone(0, true));
    assert w3.1.passes == [AwaitRead(2)];
    var w4 := Next(parse, w3, ReadDone(0, true, 0));
    RunOfFour(parse, Append(file), Notify, StatDone(0, true), ReadDone(0, true, 0));
  }

  lemma RunOfFour<E>(parse: Bytes -> Parsed<E>, a: Op, b: Op, c: Op, d: Op)
    ensures Run(parse, [a, b, c, d]) == Next(parse, Next(parse, Next(parse, Next(parse, ([], Initial()), a), b), c), d)
  {
    assert [a, b, c, d][..3] == [a, b, c] && [a, b, c][..2] == [a, b] && [a, b][..1] == [a] && [a][..0] == [];
    assert Run(parse, [a]) == Next(parse, ([], Initial()), a);
    assert Run(parse, [a, b]) == Next(parse, Run(parse, [a]), b);
    assert Run(parse, [a, b, c]) == Next(parse, Run(parse, [a, b]), c);
  }

  // ---------- no notification is lost ----------

  /** A notification taken while a pass runs makes that pass go round again before it can end
      normally. */
  lemma QueuedGoesAgain<E>(parse: Bytes -> Parsed<E>, file: Bytes, s: State<E>, op: Op)
    requires Inv(parse, file, s) && Enabled(file, s, op) && s.reading && s.queued && !s.closed
    ensures var s' := Step(parse, file, s, op).1;
            || (s'.reading && (s'.queued || s'.passes == [AwaitStat]))
            || (op.ReadDone? && !op.ok)
            || (op.ReadDone?
                && Throws(parse, Split(s.buffer + Chunk(file, s.offset, s.passes[op.i].size)).lines, op.throwsAt))
  {}

  /** The length of the file at the last notification. */
  function Due<E>(parse: Bytes -> Parsed<E>, ops: seq<Op>): nat {
    if ops == [] then 0
    else if ops[|ops| - 1].Notify? then |Run(parse, ops[..|ops| - 1]).0|
    else Due(parse, ops[..|ops| - 1])
  }

  ghost predicate AllGoesWell(ops: seq<Op>) {
    forall j | 0 <= j < |ops| ::
      !ops[j].Close? && (ops[j].StatDone? ==> ops[j].ok) && (ops[j].ReadDone? ==> ops[j].ok && ops[j].throwsAt < 0)
  }

  ghost predicate Wakes<E>(s: State<E>, due: nat) {
    && !s.closed
    && (s.passes == [] ==> due <= s.offset)
    && (|s.passes| == 1 && s.passes[0].AwaitRead? ==> s.queued || due <= s.passes[0].size)
  }

  lemma {:induction false} WakesAlways<E>(parse: Bytes -> Parsed<E>, ops: seq<Op>)
    requires AllGoesWell(ops)
    ensures Wakes(Run(parse, ops).1, Due(parse, ops)) && Due(parse, ops) <= |Run(parse, ops).0|
  {
    if ops != [] {
      var front, op := ops[..|ops| - 1], ops[|ops| - 1];
      WakesAlways(parse, front);
      RunInv(parse, front);
    }
  }

  /** Whenever no pass is running, every line complete at the last notification has been handled. */
  lemma NoNotificationLost<E>(parse: Bytes -> Parsed<E>, ops: seq<Op>)
    requires AllGoesWell(ops) && Run(parse, ops).1.passes == []
    ensures var (file, s) := Run(parse, ops);
            Due(parse, ops) <= |file| && Split(file[..Due(parse, ops)]).lines <= s.handled
  {
    var (file, s) := Run(parse, ops);
    var due := Due(parse, ops);
    WakesAlways(parse, ops);
    TailEqualsBatch(parse, ops);
    assert file[..s.offset][..due] == file[..due];
    PrefixLines(file[..s.offset], due);
  }

  // ---------- what is delivered ----------

  /** Event i is what the line at place at[i] parses to, without its line feed. */
  ghost predicate ReadFrom<E>(parse: Bytes -> Parsed<E>, lines: seq<Bytes>, events: seq<E>, at: seq<nat>, i: nat)
    requires i < |at| && i < |events|
  {
    && at[i] < |lines| && lines[at[i]] != []
    && parse(lines[at[i]][..|lines[at[i]]| - 1]) == Event(events[i])
  }

  /** `at` gives for each event, in order, the place of its line; the other lines are not events. */
  ghost predicate Delivered<E>(parse: Bytes -> Parsed<E>, lines: seq<Bytes>, events: seq<E>, at: seq<nat>) {
    && |at| == |events| && Rising(at)
    && (forall i | 0 <= i < |at| :: ReadFrom(parse, lines, events, at, i))
    && forall k | 0 <= k < |lines| && parse(Text(lines[k])).Event? :: k in at
  }

  lemma DeliverNone<E>(parse: Bytes -> Parsed<E>, lines: seq<Bytes>, events: seq<E>, at: seq<nat>, l: Bytes)
    requires Delivered(parse, lines, events, at) && !parse(Text(l)).Event?
    ensures Delivered(parse, lines + [l], events, at)
  {
    hide Text, Rising;
    forall i | 0 <= i < |at| ensures ReadFrom(parse, lines + [l], events, at, i) {
      assert ReadFrom(parse, lines, events, at, i);
    }
  }

  lemma DeliverOne<E>(parse: Bytes -> Parsed<E>, lines: seq<Bytes>, events: seq<E>, at: seq<nat>, l: Bytes, e: E)
    requires Delivered(parse, lines, events, at) && l != [] && parse(Text(l)) == Event(e)
    ensures Delivered(parse, lines + [l], events + [e], at + [|lines|])
  {
    var all, more, places := lines + [l], events + [e], at + [|lines|];
    assert ReadFrom(parse, all, more, places, |at|);
    hide Text;
    forall i | 0 <= i < |at| ensures at[i] < |lines| && ReadFrom(parse, all, more, places, i) {
      assert ReadFrom(parse, lines, events, at, i);
    }
    forall k | 0 <= k < |all| && parse(Text(all[k])).Event? ensures k in places {
      if k < |lines| { assert k in at; } else { assert places[|at|] == k; }
    }
  }

  lemma {:induction false} EventsDelivered<E>(parse: Bytes -> Parsed<E>, lines: seq<Bytes>) returns (at: seq<nat>)
    requires forall k | 0 <= k < |lines| :: lines[k] != []
    ensures Delivered(parse, lines, Events(parse, lines), at)
  {
    at := [];
    if lines != [] {
      hide Delivered;
      var front, l := lines[..|lines| - 1], lines[|lines| - 1];
      var events := Events(parse, front);
      at := EventsDelivered(parse, front);
      Snoc(lines);
      if parse(Text(l)).Event? {
        DeliverOne(parse, front, events, at, l, parse(Text(l)).event);
        at := at + [|front|];
      } else {
        DeliverNone(parse, front, events, at, l);
        AddNil(events);
      }
    }
  }

  /** The places of the lines that do not parse. */
  ghost function BadPlaces<E>(parse: Bytes -> Parsed<E>, lines: seq<Bytes>): set<nat> {
    set k: nat | k < |lines| && parse(Text(lines[k])).Bad?
  }

  lemma {:induction false} ErrorsCounted<E>(parse: Bytes -> Parsed<E>, lines: seq<Bytes>)
    ensures Errors(parse, lines) == |BadPlaces(parse, lines)|
  {
    if lines != [] {
      var n: nat := |lines| - 1;
      ErrorsCounted(parse, lines[..n]);
      assert BadPlaces(parse, lines) == BadPlaces(parse, lines[..n]) + if parse(Text(lines[n])).Bad? then {n} else {};
    }
  }

  /** For every run whose handler returns: the handler has got, once each and in order, the events of exactly those
      complete lines of the first `offset` bytes that parse to one, and the lines that do not parse are counted. */
  lemma RunDelivers<E>(parse: Bytes -> Parsed<E>, ops: seq<Op>) returns (at: seq<nat>)
    requires HandlerReturns(ops)
    ensures var (file, s) := Run(parse, ops);
            && s.offset <= |file|
            && Delivered(parse, Split(file[..s.offset]).lines, s.emitted, at)
            && s.parseErrors == |BadPlaces(parse, Split(file[..s.offset]).lines)|
  {
    hide Run, Split, Delivered, Events, Errors;
    TailEqualsBatch(parse, ops);
    var (file, s) := Run(parse, ops);
    SplitShape(file[..s.offset]);
    at := EventsDelivered(parse, s.handled);
    ErrorsCounted(parse, s.handled);
  }

  lemma ClosedStep<E>(parse: Bytes -> Parsed<E>, w: (Bytes, State<E>), op: Op)
    ensures op.Close? ==> Next(parse, w, op).1.closed
    ensures w.1.closed ==>
              var t := Next(parse, w, op).1;
              && t.closed && t.handled == w.1.handled && t.emitted == w.1.emitted && t.parseErrors == w.1.parseErrors
              && |t.passes| <= |w.1.passes|
  {
    hide Consumed;
  }

  /** After a close nothing is handled any more, whatever happens. */
  lemma {:induction false} ClosedForGood<E>(parse: Bytes -> Parsed<E>, ops: seq<Op>, n: nat)
    requires n <= |ops| && exists k | 0 <= k < n :: ops[k].Close?
    ensures var then', now := Run(parse, ops[..n]).1, Run(parse, ops).1;
            && then'.closed && now.closed
            && now.handled == then'.handled && now.emitted == then'.emitted && now.parseErrors == then'.parseErrors
            && |now.passes| <= |then'.passes|
    decreases |ops|, n
  {
    hide Next;
    var m := |ops| - 1;
    ClosedStep(parse, Run(parse, ops[..m]), ops[m]);
    if n == |ops| {
      assert ops[..n] == ops;
      if !ops[m].Close? { ClosedForGood(parse, ops[..m], m); assert ops[..m][..m] == ops[..m]; }
    } else {
      ClosedForGood(parse, ops[..m], n);
      assert ops[..m][..n] == ops[..n];
    }
  }

  /** A closed reader's pass ends as soon as it has its answer, unless that is that there is something to read. */
  lemma ClosedPassEnds<E>(parse: Bytes -> Parsed<E>, file: Bytes, s: State<E>, op: Op)
    requires s.closed && Enabled(file, s, op) && (op.ReadDone? || (op.StatDone? && (!op.ok || |file| == s.offset)))
    ensures var t := Step(parse, file, s, op).1;
            |t.passes| + 1 == |s.passes| && !t.reading && t.emitted == s.emitted && t.handled == s.handled
  {}

  /** A notification to an open reader that has no pass starts one with nothing queued behind it. */
  lemma NotificationStarts<E>(parse: Bytes -> Parsed<E>, file: Bytes, s: State<E>)
    requires !s.closed && !s.reading && s.passes == []
    ensures var t := Step(parse, file, s, Notify).1;
            t.passes == [AwaitStat] && t.reading && !t.queued && t.offset == s.offset && t.buffer == s.buffer
  {}

  lemma TruncatedResets<E>(parse: Bytes -> Parsed<E>, file: Bytes, s: State<E>, i: nat)
    requires i < |s.passes| && s.passes[i].AwaitStat? && 0 < |file| < s.offset
    ensures var (_, t) := Step(parse, file, s, StatDone(i, true));
            && t.offset == 0 && t.buffer == [] && t.handled == s.handled && t.closed == s.closed
            && t.passes == s.passes[i := AwaitRead(|file|)]
  {}

  lemma ReadFromStart<E>(parse: Bytes -> Parsed<E>, file: Bytes, s: State<E>, i: nat)
    requires i < |s.passes| && s.passes[i] == AwaitRead(|file|) && s.offset == 0 && s.buffer == [] && !s.closed
    ensures var (_, t) := Step(parse, file, s, ReadDone(i, true, -1));
            t.offset == |file| && t.buffer == Split(file).tail && t.handled == s.handled + Split(file).lines
  {
    assert Chunk(file, 0, |file|) == file && s.buffer + file == file;
    LoopKeeps(Consumed(parse, s, |file|, file, -1), i);
    hide Split, Events, Errors, LoopOrEnd;
  }

  lemma LoopKeeps<E>(s: State<E>, i: nat)
    requires i < |s.passes|
    ensures var t := LoopOrEnd(s, i); t.offset == s.offset && t.buffer == s.buffer && t.handled == s.handled
  {
  }

  /** A file shorter than the offset is read again from its start: once its size has been seen and its bytes have
      come, all its complete lines have been handled, as those of a new file. */
  lemma TruncatedStartsOver<E>(parse: Bytes -> Parsed<E>, file: Bytes, s: State<E>, i: nat)
    requires i < |s.passes| && s.passes[i].AwaitStat? && 0 < |file| < s.offset && !s.closed
    ensures var (_, sized) := Step(parse, file, s, StatDone(i, true));
            && Enabled(file, sized, ReadDone(i, true, -1))
            && var (_, t) := Step(parse, file, sized, ReadDone(i, true, -1));
               t.offset == |file| && t.buffer == Split(file).tail && t.handled == s.handled + Split(file).lines
  {
    hide Step, Split;
    TruncatedResets(parse, file, s, i);
    ReadFromStart(parse, file, Step(parse, file, s, StatDone(i, true)).1, i);
  }
}
