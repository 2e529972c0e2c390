/** Subscription streams over the committed event log. */
module SubscriptionStream {
  import opened Options
  import opened Sequences

  /** `c<lane ordinal>:<record ordinal>`. */
  datatype Cursor = Cursor(lane: nat, record: nat)

  /** One committed event. Rows that carry no cursor, topic or profile are never streamed. */
  datatype Row = Row(order: nat, cursor: Option<Cursor>, topic: Option<string>, profile: Option<string>, hash: string)

  datatype Frame = Frame(cursor: Cursor, topic: string, profile: string, recordRef: string)

  datatype Read = Frames(frames: seq<Frame>) | StaleCursor

  const BATCH: nat := 256
  const WINDOW: nat := 4096
  const LIMIT: nat := 64

  predicate Increasing(log: seq<Row>, i: nat, j: nat)
    requires i < |log| && j < |log|
  {
    log[i].order < log[j].order && (log[i].cursor.Some? ==> log[i].cursor != log[j].cursor)
  }

  /** The log is in commit order, a cursor names one row, and records are counted from 1. */
  ghost predicate Committed(log: seq<Row>) {
    && (forall i, j | 0 <= i < j < |log| :: Increasing(log, i, j))
    && forall i | 0 <= i < |log| && log[i].cursor.Some? :: log[i].cursor.value.record > 0
  }

  predicate Matches(topics: set<string>, r: Row) {
    r.cursor.Some? && r.topic.Some? && r.profile.Some? && (topics == {} || r.topic.value in topics)
  }

  function FrameOf(r: Row): Frame
    requires r.cursor.Some? && r.topic.Some? && r.profile.Some?
  {
    Frame(r.cursor.value, r.topic.value, r.profile.value, r.hash)
  }

  function FrameIf(topics: set<string>, r: Row): seq<Frame> {
    if Matches(topics, r) then [FrameOf(r)] else []
  }

  /** The batch view: the frames of all matching rows, in commit order. */
  function Filter(topics: set<string>, rows: seq<Row>): seq<Frame> {
    if rows == [] then []
    else Filter(topics, rows[..|rows| - 1]) + FrameIf(topics, rows[|rows| - 1])
  }

  /** The rows with an order above `n`. */
  function After(log: seq<Row>, n: nat): seq<Row> {
    if log == [] then []
    else After(log[..|log| - 1], n) + if log[|log| - 1].order > n then [log[|log| - 1]] else []
  }

  function Take<T>(k: nat, s: seq<T>): seq<T> { if k < |s| then s[..k] else s }

  function Find(log: seq<Row>, cursor: Cursor): Option<nat> {
    if log == [] then None
    else if log[|log| - 1].cursor == Some(cursor) then Some(log[|log| - 1].order)
    else Find(log[..|log| - 1], cursor)
  }

  predicate LaneKnown(log: seq<Row>, lane: nat) {
    exists r | r in log :: r.cursor.Some? && r.cursor.value.lane == lane
  }

  /** The order a cursor stands for: that of its record, or 0 for the start of everything or of a lane. */
  function OrderOf(log: seq<Row>, cursor: Option<Cursor>): Option<nat> {
    match cursor
    case None => Some(0)
    case Some(c) =>
      if c.record > 0 then Find(log, c)
      else if c.lane == 0 || LaneKnown(log, c.lane) then Some(0)
      else None
  }

  /** What a read answers: the first `limit` matches among the first 4096 rows after the cursor. */
  function Window(topics: set<string>, rows: seq<Row>, limit: nat): seq<Frame> {
    Take(limit, Filter(topics, Take(WINDOW, rows)))
  }

  function ReadAnswer(log: seq<Row>, topics: set<string>, cursor: Option<Cursor>, limit: nat): Read {
    var order := OrderOf(log, cursor);
    if order.None? then StaleCursor else Frames(Window(topics, After(log, order.value), limit))
  }

  function Last(frames: seq<Frame>): Option<Cursor> {
    if frames == [] then None else Some(frames[|frames| - 1].cursor)
  }

  // ---------- the durable source ----------

  datatype Subscription = Subscription(topics: set<string>, delivered: nat)

  class Source {
    /** The committed events; the row of the one subscription of interest, if there is one. */
    var log: seq<Row>
    var row: Option<Subscription>

    constructor (log: seq<Row>, row: Option<Subscription>)
      ensures this.log == log && this.row == row
    {
      this.log, this.row := log, row;
    }

    /** The port's answer: the first k rows with an order above n. */
    method EventsAfter(n: nat, k: nat) returns (rows: seq<Row>)
      ensures rows == Take(k, After(log, n))
    {
      rows := [];
      for i := 0 to |log|
        invariant rows == Take(k, After(log[..i], n))
      {
        assert log[..i + 1][..i] == log[..i];
        if log[i].order > n && |rows| < k {
          rows := rows + [log[i]];
        }
      }
      assert log[..|log|] == log;
    }

    /** Reads in batches of 256 over a window of 4096 rows, filtering by topic, until the limit. */
    method Scan(topics: set<string>, order: nat, limit: nat) returns (out: seq<Frame>)
      requires Committed(log)
      ensures out == Window(topics, After(log, order), limit)
    {
      hide Filter, Take, Window, After, Committed, Increasing;
      ghost var rows := After(log, order);
      ghost var rounds: nat := 0;
      out := [];
      var scanned: nat, scanOrder := 0, order;
      FilterNone(topics, rows);
      while |out| < limit && scanned < WINDOW
        invariant scanned == BATCH * rounds && scanned <= WINDOW && scanned <= |rows|
        invariant After(log, scanOrder) == rows[scanned..]
        invariant out == Filter(topics, rows[..scanned]) && |out| <= limit
        decreases WINDOW - scanned
      {
        var batch := EventsAfter(scanOrder, BATCH);
        BatchAt(rows, scanned, batch);
        if batch == [] { break; }
        var n;
        out, n, scanOrder := Collect(topics, batch, limit, out, scanOrder);
        FilterMore(topics, rows, scanned, batch[..n]);
        assert scanned + n <= WINDOW;
        scanned := scanned + n;
        if |out| >= limit { break; }
        assert scanOrder == rows[scanned - 1].order;
        AfterRow(log, order, scanned - 1);
        if |batch| < BATCH { break; }
        rounds := rounds + 1;
      }
      if |out| < limit {
        WindowDone(topics, rows, scanned, limit);
      } else {
        LimitReached(topics, rows, scanned, limit);
      }
    }

    /** One batch: stops behind the row that reaches the limit. */
    method Collect(topics: set<string>, batch: seq<Row>, limit: nat, before: seq<Frame>, from: nat)
      returns (out: seq<Frame>, n: nat, scanOrder: nat)
      requires batch != [] && |before| < limit
      ensures 0 < n <= |batch| && scanOrder == batch[n - 1].order
      ensures out == before + Filter(topics, batch[..n]) && |out| <= limit
      ensures |out| < limit ==> n == |batch|
    {
      out, n, scanOrder := before, 0, from;
      while n < |batch|
        invariant n <= |batch| && (n > 0 ==> scanOrder == batch[n - 1].order)
        invariant out == before + Filter(topics, batch[..n]) && |out| < limit
      {
        var r := batch[n];
        FilterStep(topics, batch, n);
        n, scanOrder := n + 1, r.order;
        if !Matches(topics, r) { continue; }
        out := out + [FrameOf(r)];
        if |out| >= limit { return; }
      }
    }

    /** Answers the frames after a cursor and moves the delivered mark up to the last of them. */
    method ReadAfter(cursor: Option<Cursor>, limit: nat) returns (r: Read)
      requires Committed(log)
      modifies this`row
      ensures old(row).None? ==> r == Frames([]) && row == None
      ensures old(row).Some? ==>
                && r == ReadAnswer(log, old(row).value.topics, cursor, limit)
                && row == Some(Subscription(old(row).value.topics, Delivered(log, old(row).value.delivered, r)))
    {
      if row.None? { return Frames([]); }
      var order := OrderOf(log, cursor);
      if order.None? { return StaleCursor; }
      var out := Scan(row.value.topics, order.value, limit);
      if out != [] {
        var last := OrderOf(log, Some(out[|out| - 1].cursor));
        if last.Some? && last.value > row.value.delivered {
          row := Some(row.value.(delivered := last.value));
        }
      }
      return Frames(out);
    }
  }

  /** The delivered mark after a read. */
  function Delivered(log: seq<Row>, before: nat, r: Read): (d: nat)
    ensures before <= d
  {
    if r.StaleCursor? || r.frames == [] then before
    else match OrderOf(log, Last(r.frames)) case Some(n) => if n > before then n else before case None => before
  }

  // ---------- lemmas of the scan ----------

  lemma FilterStep(topics: set<string>, rows: seq<Row>, n: nat)
    requires n < |rows|
    ensures Filter(topics, rows[..n + 1]) == Filter(topics, rows[..n]) + FrameIf(topics, rows[n])
  {
    assert rows[..n + 1][..n] == rows[..n];
  }

  lemma {:induction false} FilterAppend(topics: set<string>, a: seq<Row>, b: seq<Row>)
    ensures Filter(topics, a + b) == Filter(topics, a) + Filter(topics, b)
  {
    if b == [] {
      AddNil(a);
      AddNil(Filter(topics, a));
    } else {
      var front, r := b[..|b| - 1], b[|b| - 1];
      FilterAppend(topics, a, front);
      Snoc(b);
      Assoc(a, front, [r]);
      Unsnoc(a + front, r);
      Assoc(Filter(topics, a), Filter(topics, front), FrameIf(topics, r));
    }
  }

  lemma FilterSplit(topics: set<string>, rows: seq<Row>, n: nat)
    requires n <= |rows|
    ensures Filter(topics, rows) == Filter(topics, rows[..n]) + Filter(topics, rows[n..])
  {
    FilterAppend(topics, rows[..n], rows[n..]);
    assert rows[..n] + rows[n..] == rows;
  }

  lemma FilterPrefix(topics: set<string>, rows: seq<Row>, m: nat, n: nat)
    requires m <= n <= |rows|
    ensures Filter(topics, rows[..m]) <= Filter(topics, rows[..n])
  {
    FilterSplit(topics, rows[..n], m);
    assert rows[..n][..m] == rows[..m];
  }

  lemma TakePrefix<T>(k: nat, a: seq<T>, b: seq<T>)
    requires a <= b && |a| == k
    ensures Take(k, b) == a
  {}

  lemma FilterNone(topics: set<string>, rows: seq<Row>)
    ensures Filter(topics, rows[..0]) == [] && rows[0..] == rows
  {}

  lemma BatchAt(rows: seq<Row>, n: nat, batch: seq<Row>)
    requires n <= |rows| && batch == Take(BATCH, rows[n..])
    ensures n + |batch| <= |rows| && |batch| <= BATCH && (|batch| < BATCH ==> n + |batch| == |rows|)
    ensures forall k | 0 <= k < |batch| :: batch[k] == rows[n + k]
  {}

  lemma FilterMore(topics: set<string>, rows: seq<Row>, n: nat, more: seq<Row>)
    requires n + |more| <= |rows| && forall k | 0 <= k < |more| :: more[k] == rows[n + k]
    ensures Filter(topics, rows[..n + |more|]) == Filter(topics, rows[..n]) + Filter(topics, more)
  {
    FilterAppend(topics, rows[..n], more);
    TakeMore(rows, n, more);
  }

  lemma TakeMore<T>(s: seq<T>, n: nat, more: seq<T>)
    requires n + |more| <= |s| && forall k | 0 <= k < |more| :: more[k] == s[n + k]
    ensures s[..n + |more|] == s[..n] + more
  {}

  lemma LimitReached(topics: set<string>, rows: seq<Row>, n: nat, limit: nat)
    requires n <= |rows| && n <= WINDOW && |Filter(topics, rows[..n])| == limit
    ensures Filter(topics, rows[..n]) == Window(topics, rows, limit)
  {
    var w := if WINDOW < |rows| then WINDOW else |rows|;
    assert rows[..|rows|] == rows;
    FilterPrefix(topics, rows, n, w);
    TakePrefix(limit, Filter(topics, rows[..n]), Filter(topics, rows[..w]));
  }

  lemma WindowDone(topics: set<string>, rows: seq<Row>, n: nat, limit: nat)
    requires n <= |rows| && (n == WINDOW || (n == |rows| && n <= WINDOW)) && |Filter(topics, rows[..n])| < limit
    ensures Filter(topics, rows[..n]) == Window(topics, rows, limit)
  {
    assert rows[..|rows|] == rows;
  }

  lemma {:induction false} AllAfter(log: seq<Row>, n: nat)
    requires forall i | 0 <= i < |log| :: log[i].order > n
    ensures After(log, n) == log
  {
    if log != [] {
      AllAfter(log[..|log| - 1], n);
      Snoc(log);
    }
  }

  lemma {:induction false} NoneAfter(log: seq<Row>, n: nat)
    requires forall i | 0 <= i < |log| :: log[i].order <= n
    ensures After(log, n) == []
  {
    if log != [] {
      NoneAfter(log[..|log| - 1], n);
    }
  }

  lemma {:induction false} AfterAppend(a: seq<Row>, b: seq<Row>, n: nat)
    ensures After(a + b, n) == After(a, n) + After(b, n)
  {
    if b == [] {
      AddNil(a);
      AddNil(After(a, n));
    } else {
      var front, r := b[..|b| - 1], b[|b| - 1];
      AfterAppend(a, front, n);
      Snoc(b);
      Assoc(a, front, [r]);
      Unsnoc(a + front, r);
      Assoc(After(a, n), After(front, n), if r.order > n then [r] else []);
    }
  }

  /** How many rows have an order up to n. */
  function Upto(log: seq<Row>, n: nat): (k: nat)
    ensures k <= |log|
  {
    if log == [] then 0 else if log[|log| - 1].order <= n then |log| else Upto(log[..|log| - 1], n)
  }

  lemma {:induction false} UptoSplits(log: seq<Row>, n: nat)
    requires Committed(log)
    ensures forall i | 0 <= i < |log| :: log[i].order <= n <==> i < Upto(log, n)
  {
    if log != [] {
      var front := log[..|log| - 1];
      assert forall i, j | 0 <= i < j < |front| :: Increasing(front, i, j) by {
        forall i, j | 0 <= i < j < |front| ensures Increasing(front, i, j) {
          assert Increasing(log, i, j);
        }
      }
      UptoSplits(front, n);
      assert forall i | 0 <= i < |front| :: log[i] == front[i] && Increasing(log, i, |log| - 1);
    }
  }

  /** The rows after an order are a suffix of the log. */
  lemma AfterIsSuffix(log: seq<Row>, n: nat)
    requires Committed(log)
    ensures After(log, n) == log[Upto(log, n)..]
  {
    hide After, Upto;
    var k := Upto(log, n);
    UptoSplits(log, n);
    AfterAppend(log[..k], log[k..], n);
    NoneAfter(log[..k], n);
    AllAfter(log[k..], n);
    assert log[..k] + log[k..] == log;
    AddNil(log[k..]);
  }

  /** Continuing after row i of what follows an order continues right behind it. */
  lemma AfterRow(log: seq<Row>, n: nat, i: nat)
    requires Committed(log) && i < |After(log, n)|
    ensures After(log, After(log, n)[i].order) == After(log, n)[i + 1..]
  {
    hide After, Upto, Increasing;
    var k := Upto(log, n);
    AfterIsSuffix(log, n);
    var m := log[k + i].order;
    AfterIsSuffix(log, m);
    UptoSplits(log, m);
    UptoAt(log, k + i);
    assert log[k..][i + 1..] == log[k + i + 1..];
  }

  lemma UptoAt(log: seq<Row>, i: nat)
    requires Committed(log) && i < |log|
    ensures Upto(log, log[i].order) == i + 1
  {
    UptoSplits(log, log[i].order);
    if i + 1 < |log| { assert Increasing(log, i, i + 1); }
  }

  // ---------- one stream ----------

  /** `sent` are the frames passed to the writer. */
  datatype Stream = Stream(cursor: Option<Cursor>, closed: bool, sent: seq<Frame>)

  /** Rows committed before a poll, and whether and after how many of its frames the stream closes. */
  datatype Round = Round(appended: seq<Row>, cut: Option<nat>)

  function Written(frames: seq<Frame>, cut: Option<nat>): seq<Frame> {
    if cut.Some? then Take(cut.value, frames) else frames
  }

  function Polled(log: seq<Row>, topics: set<string>, st: Stream, cut: Option<nat>): Stream {
    match ReadAnswer(log, topics, st.cursor, LIMIT)
    case StaleCursor => st.(closed := true)
    case Frames(frames) =>
      var w := Written(frames, cut);
      Stream(if w == [] then st.cursor else Last(w), cut.Some?, st.sent + w)
  }

  function Served(log: seq<Row>, topics: set<string>, st: Stream, rounds: seq<Round>): (seq<Row>, Stream) {
    if rounds == [] then (log, st)
    else
      var (log', st') := Served(log, topics, st, rounds[..|rounds| - 1]);
      var round := rounds[|rounds| - 1];
      (log' + round.appended, if st'.closed then st' else Polled(log' + round.appended, topics, st', round.cut))
  }

  /** Cursor order: lane ordinal, then record ordinal. */
  predicate Precedes(a: Cursor, b: Cursor) { a.lane < b.lane || (a.lane == b.lane && a.record < b.record) }

  /** A stream opens unless its cursor precedes the earliest retained one. */
  function Opening(log: seq<Row>, lastEventId: Option<Cursor>, lastAck: Option<Cursor>): Option<Stream> {
    var cursor := if lastEventId.Some? then lastEventId else lastAck;
    if cursor.Some? && log != [] && log[0].cursor.Some? && Precedes(cursor.value, log[0].cursor.value) then None
    else Some(Stream(cursor, false, []))
  }

  class Server {
    const source: Source
    var cursor: Option<Cursor>
    var closed: bool
    var sent: seq<Frame>

    constructor (source: Source, cursor: Option<Cursor>)
      ensures this.source == source && Now() == Stream(cursor, false, [])
    {
      this.source, this.cursor, closed, sent := source, cursor, false, [];
    }

    ghost function Now(): Stream
      reads this
    {
      Stream(cursor, closed, sent)
    }

    /** One turn of the loop: read, then pass the frames to the writer one by one. */
    method Poll(cut: Option<nat>)
      requires Committed(source.log) && source.row.Some? && !closed
      modifies this, source`row
      ensures source.row.Some? && source.row.value.topics == old(source.row.value.topics)
      ensures old(source.row.value.delivered) <= source.row.value.delivered
      ensures Now() == Polled(source.log, old(source.row.value.topics), old(Now()), cut)
    {
      hide OrderOf, Window, Committed;
      var read := source.ReadAfter(cursor, LIMIT);
      if read.StaleCursor? {
        closed := true;
        return;
      }
      ghost var row := source.row;
      var n := 0;
      while n < |read.frames| && !(cut.Some? && n >= cut.value)
        invariant n <= |read.frames| && (cut.Some? ==> n <= cut.value) && !closed && source.row == row
        invariant sent == old(sent) + read.frames[..n]
        invariant cursor == if n == 0 then old(cursor) else Some(read.frames[n - 1].cursor)
      {
        sent := sent + [read.frames[n]];
        cursor := Some(read.frames[n].cursor);
        n := n + 1;
      }
      assert read.frames[..n] == Written(read.frames, cut);
      closed := cut.Some?;
    }
  }

  // ---------- every schedule of commits and polls ----------

  lemma {:induction false} FoundAt(log: seq<Row>, i: nat)
    requires Committed(log) && i < |log| && log[i].cursor.Some?
    ensures OrderOf(log, log[i].cursor) == Some(log[i].order)
  {
    var n := |log| - 1;
    if i < n {
      var front := log[..n];
      assert Increasing(log, i, n);
      forall a, b | 0 <= a < b < n ensures Increasing(front, a, b) { assert Increasing(log, a, b); }
      FoundAt(front, i);
    }
  }

  lemma {:induction false} FindIn(log: seq<Row>, c: Cursor)
    requires Find(log, c).Some?
    ensures exists i :: 0 <= i < |log| && log[i].cursor == Some(c)
  {
    if log[|log| - 1].cursor != Some(c) {
      FindIn(log[..|log| - 1], c);
      var i :| 0 <= i < |log| - 1 && log[..|log| - 1][i].cursor == Some(c);
      assert log[i].cursor == Some(c);
    }
  }

  /** Commits do not change what a resolvable cursor stands for. */
  lemma OrderStays(log: seq<Row>, more: seq<Row>, cursor: Option<Cursor>)
    requires Committed(log + more) && OrderOf(log, cursor).Some?
    ensures OrderOf(log + more, cursor) == OrderOf(log, cursor)
  {
    if cursor.Some? && cursor.value.record > 0 {
      FindIn(log, cursor.value);
      var i :| 0 <= i < |log| && log[i].cursor == cursor;
      CommittedPrefix(log, more);
      FoundAt(log, i);
      FoundAt(log + more, i);
    } else if cursor.Some? && cursor.value.lane != 0 {
      var r :| r in log && r.cursor.Some? && r.cursor.value.lane == cursor.value.lane;
      assert r in log + more;
    }
  }

  lemma CommittedPrefix(log: seq<Row>, more: seq<Row>)
    requires Committed(log + more)
    ensures Committed(log)
  {
    var whole := log + more;
    forall i, j | 0 <= i < j < |log| ensures Increasing(log, i, j) { assert Increasing(whole, i, j); }
    forall i | 0 <= i < |log| && log[i].cursor.Some? ensures log[i].cursor.value.record > 0 {
      assert whole[i] == log[i];
    }
  }

  /** The stream stands behind row p of what follows its start: everything matching up to there has
      been sent, and its cursor stands for that place. */
  ghost predicate StandsAt(log: seq<Row>, topics: set<string>, start: nat, st: Stream, p: nat) {
    var rows := After(log, start);
    && p <= |rows| && st.sent == Filter(topics, rows[..p])
    && OrderOf(log, st.cursor) == Some(if p == 0 then start else rows[p - 1].order)
  }

  lemma GrowthKeeps(log: seq<Row>, more: seq<Row>, topics: set<string>, start: nat, st: Stream, p: nat)
    requires Committed(log + more) && StandsAt(log, topics, start, st, p)
    ensures StandsAt(log + more, topics, start, st, p)
  {
    hide Committed, Filter, OrderOf;
    AfterAppend(log, more, start);
    OrderStays(log, more, st.cursor);
    var rows, rows' := After(log, start), After(log + more, start);
    assert rows'[..p] == rows[..p];
    if p > 0 { assert rows'[p - 1] == rows[p - 1]; }
  }

  /** Any number of frames of a filter is the filter up to the row of the last of them. */
  lemma {:induction false} CutPoint(topics: set<string>, rows: seq<Row>, k: nat) returns (q: nat)
    requires k <= |Filter(topics, rows)|
    ensures q <= |rows| && Filter(topics, rows[..q]) == Filter(topics, rows)[..k]
    ensures if k == 0 then q == 0
            else q > 0 && Matches(topics, rows[q - 1]) && FrameOf(rows[q - 1]) == Filter(topics, rows)[k - 1]
  {
    hide FrameOf;
    if k == 0 {
      q := 0;
    } else {
      var n := |rows| - 1;
      var front := rows[..n];
      if k <= |Filter(topics, front)| {
        q := CutPoint(topics, front, k);
        assert front[..q] == rows[..q];
      } else {
        q := |rows|;
        assert rows[..q] == rows;
      }
    }
  }

  /** The frames one poll writes are the filter up to the row of the last of them. */
  lemma WrittenPoint(topics: set<string>, rows: seq<Row>, cut: Option<nat>) returns (q: nat)
    ensures var w := Written(Window(topics, rows, LIMIT), cut);
            && q <= |rows| && Filter(topics, rows[..q]) == w
            && if w == [] then q == 0 else q > 0 && rows[q - 1].cursor.Some? && rows[q - 1].cursor == Last(w)
  {
    var window := Take(WINDOW, rows);
    var frames := Filter(topics, window);
    var w := Written(Take(LIMIT, frames), cut);
    assert w == frames[..|w|];
    q := CutPoint(topics, window, |w|);
    assert window[..q] == rows[..q];
  }

  lemma PollKeeps(log: seq<Row>, topics: set<string>, start: nat, st: Stream, p: nat, cut: Option<nat>)
    returns (p': nat)
    requires Committed(log) && StandsAt(log, topics, start, st, p) && !st.closed
    ensures var st' := Polled(log, topics, st, cut);
            p <= p' && StandsAt(log, topics, start, st', p') && st'.closed == cut.Some?
  {
    hide Committed, OrderOf, Filter, Window, Written, After;
    var rows := After(log, start);
    Continues(log, start, p);
    var rest := rows[p..];
    assert ReadAnswer(log, topics, st.cursor, LIMIT) == Frames(Window(topics, rest, LIMIT));
    var q := WrittenPoint(topics, rest, cut);
    p' := p + q;
    FilterSplit(topics, rows[..p'], p);
    assert rows[..p'][..p] == rows[..p] && rows[..p'][p..] == rest[..q];
    if q > 0 {
      assert rest[q - 1] == rows[p' - 1];
      RowOrder(log, start, p' - 1);
    } else {
      AddNil(st.sent);
    }
  }

  lemma Continues(log: seq<Row>, start: nat, p: nat)
    requires Committed(log) && p <= |After(log, start)|
    ensures After(log, if p == 0 then start else After(log, start)[p - 1].order) == After(log, start)[p..]
  {
    if p > 0 { AfterRow(log, start, p - 1); }
  }

  lemma RowOrder(log: seq<Row>, start: nat, i: nat)
    requires Committed(log) && i < |After(log, start)| && After(log, start)[i].cursor.Some?
    ensures OrderOf(log, After(log, start)[i].cursor) == Some(After(log, start)[i].order)
  {
    AfterIsSuffix(log, start);
    FoundAt(log, Upto(log, start) + i);
  }

  lemma {:induction false} ServedStands(log: seq<Row>, topics: set<string>, start: nat, st: Stream, p: nat,
                                        rounds: seq<Round>) returns (p': nat)
    requires Committed(Served(log, topics, st, rounds).0) && StandsAt(log, topics, start, st, p)
    ensures var (log', st') := Served(log, topics, st, rounds);
            p <= p' && StandsAt(log', topics, start, st', p') && log <= log'
  {
    if rounds == [] {
      p' := p;
    } else {
      var front, round := rounds[..|rounds| - 1], rounds[|rounds| - 1];
      var (log1, st1) := Served(log, topics, st, front);
      CommittedPrefix(log1, round.appended);
      p' := ServedStands(log, topics, start, st, p, front);
      GrowthKeeps(log1, round.appended, topics, start, st1, p');
      if !st1.closed {
        p' := PollKeeps(log1 + round.appended, topics, start, st1, p', round.cut);
      }
    }
  }

  /** Whatever is committed between polls and wherever the stream is cut, the frames passed to the
      writer are a prefix of the topic-filtered log after the start cursor: in order, none skipped,
      none repeated. */
  lemma StreamRefinesFilter(log: seq<Row>, topics: set<string>, cursor: Option<Cursor>, rounds: seq<Round>)
    requires OrderOf(log, cursor).Some?
    requires Committed(Served(log, topics, Stream(cursor, false, []), rounds).0)
    ensures var (log', st') := Served(log, topics, Stream(cursor, false, []), rounds);
            st'.sent <= Filter(topics, After(log', OrderOf(log, cursor).value))
  {
    var st := Stream(cursor, false, []);
    var start := OrderOf(log, cursor).value;
    var (log', st') := Served(log, topics, st, rounds);
    assert StandsAt(log, topics, start, st, 0);
    var p := ServedStands(log, topics, start, st, 0, rounds);
    var rows := After(log', start);
    FilterPrefix(topics, rows, p, |rows|);
    assert rows[..|rows|] == rows;
  }

  /** The frame tells of the row: its cursor, topic, profile and hash. */
  predicate Tells(f: Frame, r: Row) {
    r.cursor == Some(f.cursor) && r.topic == Some(f.topic) && r.profile == Some(f.profile) && r.hash == f.recordRef
  }

  /** A row the subscription asks for: it can be streamed and has one of the topics, if any are named. */
  predicate Asked(topics: set<string>, r: Row) {
    r.cursor.Some? && r.topic.Some? && r.profile.Some? && (topics != {} ==> r.topic.value in topics)
  }

  lemma {:induction false} FilterTells(topics: set<string>, rows: seq<Row>)
    ensures forall f | f in Filter(topics, rows) :: exists r :: r in rows && Asked(topics, r) && Tells(f, r)
    ensures forall r | r in rows && Asked(topics, r) :: exists f :: f in Filter(topics, rows) && Tells(f, r)
  {
    if rows != [] {
      var front, last := rows[..|rows| - 1], rows[|rows| - 1];
      FilterTells(topics, front);
      forall f | f in Filter(topics, rows) ensures exists r :: r in rows && Asked(topics, r) && Tells(f, r) {
        if f in Filter(topics, front) {
          var r :| r in front && Asked(topics, r) && Tells(f, r);
          assert r in rows;
        } else {
          assert Tells(f, last) && Asked(topics, last);
        }
      }
      forall r | r in rows && Asked(topics, r) ensures exists f :: f in Filter(topics, rows) && Tells(f, r) {
        if r == last {
          assert FrameOf(r) in Filter(topics, rows);
        } else {
          assert r in front;
          var f :| f in Filter(topics, front) && Tells(f, r);
          assert f in Filter(topics, rows);
        }
      }
    }
  }

  /** Whatever the schedule: there is a place in the log up to which exactly the rows asked for have been sent;
      each frame tells of one of them, and each of them has its frame. */
  lemma FramesTellRows(log: seq<Row>, topics: set<string>, cursor: Option<Cursor>, rounds: seq<Round>)
    returns (p: nat)
    requires OrderOf(log, cursor).Some?
    requires Committed(Served(log, topics, Stream(cursor, false, []), rounds).0)
    ensures var (log', st') := Served(log, topics, Stream(cursor, false, []), rounds);
            var rows := After(log', OrderOf(log, cursor).value);
            && p <= |rows|
            && (forall f | f in st'.sent :: exists r :: r in rows[..p] && Asked(topics, r) && Tells(f, r))
            && (forall r | r in rows[..p] && Asked(topics, r) :: exists f :: f in st'.sent && Tells(f, r))
            && OrderOf(log', st'.cursor) == Some(if p == 0 then OrderOf(log, cursor).value else rows[p - 1].order)
  {
    hide Committed, OrderOf, After, Filter;
    var start := OrderOf(log, cursor).value;
    StandsFirst(log, topics, cursor);
    p := ServedStands(log, topics, start, Stream(cursor, false, []), 0, rounds);
    var (log', st') := Served(log, topics, Stream(cursor, false, []), rounds);
    FilterTells(topics, After(log', start)[..p]);
  }

  /** After a read that found something the delivered mark is the order of its last row, unless it was beyond
      that before. */
  lemma DeliveredIs(log: seq<Row>, before: nat, frames: seq<Frame>, i: nat)
    requires Committed(log) && i < |log| && frames != [] && log[i].cursor == Some(frames[|frames| - 1].cursor)
    ensures Delivered(log, before, Frames(frames)) == if before < log[i].order then log[i].order else before
    ensures Delivered(log, before, Frames([])) == before && Delivered(log, before, StaleCursor) == before
  {
    FoundAt(log, i);
  }

  /** A stream resumed from the last frame of an earlier one carries on where that one stopped. */
  lemma ResumeContinues(log: seq<Row>, topics: set<string>, cursor: Option<Cursor>, rounds: seq<Round>,
                        between: seq<Row>, rounds2: seq<Round>)
    requires OrderOf(log, cursor).Some?
    requires var (log1, st1) := Served(log, topics, Stream(cursor, false, []), rounds);
             var resumed := Stream(st1.cursor, false, []);
             Committed(Served(log1 + between, topics, resumed, rounds2).0)
    ensures var (log1, st1) := Served(log, topics, Stream(cursor, false, []), rounds);
            var (log2, st2) := Served(log1 + between, topics, Stream(st1.cursor, false, []), rounds2);
            st1.sent + st2.sent <= Filter(topics, After(log2, OrderOf(log, cursor).value))
  {
    hide Committed, OrderOf, After;
    var st := Stream(cursor, false, []);
    var start := OrderOf(log, cursor).value;
    var (log1, st1) := Served(log, topics, st, rounds);
    var resumed := Stream(st1.cursor, false, []);
    var (log2, st2) := Served(log1 + between, topics, resumed, rounds2);
    ServedGrows(log1 + between, topics, resumed, rounds2);
    assert log2 == (log1 + between) + log2[|log1 + between|..];
    CommittedPrefix(log1 + between, log2[|log1 + between|..]);
    CommittedPrefix(log1, between);
    StandsFirst(log, topics, cursor);
    var p := ServedStands(log, topics, start, st, 0, rounds);
    GrowthKeeps(log1, between, topics, start, st1, p);
    var joined := ResumedAs(log1 + between, topics, start, st1, p, rounds2);
  }

  lemma StandsFirst(log: seq<Row>, topics: set<string>, cursor: Option<Cursor>)
    requires OrderOf(log, cursor).Some?
    ensures StandsAt(log, topics, OrderOf(log, cursor).value, Stream(cursor, false, []), 0)
  {}

  lemma {:induction false} ServedGrows(log: seq<Row>, topics: set<string>, st: Stream, rounds: seq<Round>)
    ensures log <= Served(log, topics, st, rounds).0
  {
    if rounds != [] {
      ServedGrows(log, topics, st, rounds[..|rounds| - 1]);
    }
  }

  /** What is sent does not depend on what was sent before. */
  lemma {:induction false} SentBefore(log: seq<Row>, topics: set<string>, st: Stream, rounds: seq<Round>)
    ensures var (log1, st1) := Served(log, topics, st, rounds);
            var (log2, st2) := Served(log, topics, st.(sent := []), rounds);
            log1 == log2 && st1 == st2.(sent := st.sent + st2.sent)
  {
    hide ReadAnswer;
    if rounds == [] {
      AddNil(st.sent);
    } else {
      var front, round := rounds[..|rounds| - 1], rounds[|rounds| - 1];
      SentBefore(log, topics, st, front);
      var (log2, st2) := Served(log, topics, st.(sent := []), front);
      match ReadAnswer(log2 + round.appended, topics, st2.cursor, LIMIT) {
        case StaleCursor =>
        case Frames(frames) => Assoc(st.sent, st2.sent, Written(frames, round.cut));
      }
    }
  }

  lemma ResumedAs(log: seq<Row>, topics: set<string>, start: nat, st: Stream, p: nat, rounds: seq<Round>)
    returns (whole: seq<Frame>)
    requires StandsAt(log, topics, start, st, p)
    requires Committed(Served(log, topics, Stream(st.cursor, false, []), rounds).0)
    ensures var (log2, st2) := Served(log, topics, Stream(st.cursor, false, []), rounds);
            whole == st.sent + st2.sent && whole <= Filter(topics, After(log2, start))
  {
    hide Committed, OrderOf;
    var open := st.(closed := false);
    SentBefore(log, topics, open, rounds);
    var (log2, st2) := Served(log, topics, Stream(st.cursor, false, []), rounds);
    whole := st.sent + st2.sent;
    var q := ServedStands(log, topics, start, open, p, rounds);
    var rows := After(log2, start);
    FilterPrefix(topics, rows, q, |rows|);
    assert rows[..|rows|] == rows;
  }

  // ---------- where the window stops a stream ----------

  lemma {:induction false} EmptyFilter(topics: set<string>, rows: seq<Row>)
    ensures Filter(topics, rows) == [] <==> forall i | 0 <= i < |rows| :: !Matches(topics, rows[i])
  {
    if rows != [] {
      EmptyFilter(topics, rows[..|rows| - 1]);
      assert forall i | 0 <= i < |rows| - 1 :: rows[..|rows| - 1][i] == rows[i];
    }
  }

  /** None of the first 4096 of these rows matches. */
  ghost predicate NoneMatches(topics: set<string>, rows: seq<Row>) {
    forall i | 0 <= i < |rows| && i < 4096 :: !Matches(topics, rows[i])
  }

  /** A read comes back empty exactly when none of the first 4096 rows after the cursor matches. */
  lemma EmptyReadIff(log: seq<Row>, topics: set<string>, cursor: Option<Cursor>)
    requires OrderOf(log, cursor).Some?
    ensures ReadAnswer(log, topics, cursor, LIMIT) == Frames([])
       <==> NoneMatches(topics, After(log, OrderOf(log, cursor).value))
  {
    hide Filter, After, OrderOf, Matches;
    var rows := After(log, OrderOf(log, cursor).value);
    var w := Take(WINDOW, rows);
    EmptyFilter(topics, w);
    assert Take(LIMIT, Filter(topics, w)) == [] <==> Filter(topics, w) == [];
    if Filter(topics, w) == [] {
      forall i | 0 <= i < |rows| && i < WINDOW ensures !Matches(topics, rows[i]) { assert w[i] == rows[i]; }
    } else {
      var i :| 0 <= i < |w| && Matches(topics, w[i]);
      assert 0 <= i < |rows| && i < WINDOW && Matches(topics, rows[i]);
    }
  }

  /** The stream gives up on the rest of the log when 4096 rows after its cursor do not match: from
      then on no commit, matching or not, is ever sent. */
  lemma StuckForever(log: seq<Row>, topics: set<string>, st: Stream, rounds: seq<Round>)
    requires OrderOf(log, st.cursor).Some? && |After(log, OrderOf(log, st.cursor).value)| >= WINDOW
    requires ReadAnswer(log, topics, st.cursor, LIMIT) == Frames([])
    requires Committed(Served(log, topics, st, rounds).0)
    ensures var (log', st') := Served(log, topics, st, rounds);
            st'.sent == st.sent && st'.cursor == st.cursor
  {
    if rounds != [] {
      var front, round := rounds[..|rounds| - 1], rounds[|rounds| - 1];
      var (log1, st1) := Served(log, topics, st, front);
      var log2 := log1 + round.appended;
      CommittedPrefix(log1, round.appended);
      StuckForever(log, topics, st, front);
      ServedGrows(log, topics, st, front);
      var more := log2[|log|..];
      assert log2 == log + more;
      StuckRead(log, more, topics, st.cursor);
      AddNil(st.sent);
    }
  }

  lemma StuckRead(log: seq<Row>, more: seq<Row>, topics: set<string>, cursor: Option<Cursor>)
    requires OrderOf(log, cursor).Some? && |After(log, OrderOf(log, cursor).value)| >= WINDOW
    requires ReadAnswer(log, topics, cursor, LIMIT) == Frames([]) && Committed(log + more)
    ensures ReadAnswer(log + more, topics, cursor, LIMIT) == Frames([])
  {
    hide Committed, OrderOf, Filter;
    OrderStays(log, more, cursor);
    var n := OrderOf(log, cursor).value;
    AfterAppend(log, more, n);
    assert Take(WINDOW, After(log + more, n)) == Take(WINDOW, After(log, n));
  }

  /** 4096 rows follow the order and none of the first 4096 matches. */
  ghost predicate Blocked(rows: seq<Row>, topics: set<string>) {
    |rows| >= WINDOW && NoneMatches(topics, rows)
  }

  ghost predicate NeverSends(log: seq<Row>, topics: set<string>, st: Stream) {
    forall rounds | Committed(Served(log, topics, st, rounds).0) :: Served(log, topics, st, rounds).1.sent == st.sent
  }

  function Greatest(log: seq<Row>): (n: nat)
    ensures forall i | 0 <= i < |log| && log[i].cursor.Some? :: log[i].cursor.value.record <= n
  {
    if log == [] then 0
    else
      var n, r := Greatest(log[..|log| - 1]), log[|log| - 1];
      assert forall i | 0 <= i < |log| - 1 :: log[i] == log[..|log| - 1][i];
      if r.cursor.Some? && r.cursor.value.record > n then r.cursor.value.record else n
  }

  /** A row that can be committed next and that the subscription selects. */
  lemma NextMatch(log: seq<Row>, topics: set<string>) returns (r: Row)
    requires Committed(log)
    ensures Matches(topics, r) && Committed(log + [r])
    ensures r.order > 0 && (log != [] ==> log[|log| - 1].order < r.order)
  {
    var topic := "";
    if topics != {} { topic :| topic in topics; }
    var order := if log == [] then 1 else log[|log| - 1].order + 1;
    r := Row(order, Some(Cursor(0, Greatest(log) + 1)), Some(topic), Some(""), "");
    var whole := log + [r];
    forall i, j | 0 <= i < j < |whole| ensures Increasing(whole, i, j) {
      if j < |log| { assert Increasing(log, i, j); } else if i < |log| - 1 { assert Increasing(log, i, |log| - 1); }
    }
    forall i | 0 <= i < |whole| && whole[i].cursor.Some? ensures whole[i].cursor.value.record > 0 {
      if i < |log| { assert log[i] == whole[i]; }
    }
  }

  /** No resolvable cursor stands for an order above the last. */
  lemma OrderWithin(log: seq<Row>, cursor: Option<Cursor>)
    requires Committed(log) && OrderOf(log, cursor).Some?
    ensures var n := OrderOf(log, cursor).value; n == 0 || (log != [] && n <= log[|log| - 1].order)
  {
    if cursor.Some? && cursor.value.record > 0 {
      FindIn(log, cursor.value);
      var i :| 0 <= i < |log| && log[i].cursor == cursor;
      FoundAt(log, i);
      if i < |log| - 1 { assert Increasing(log, i, |log| - 1); }
    }
  }

  lemma OneRound(log: seq<Row>, topics: set<string>, st: Stream, appended: seq<Row>)
    requires !st.closed
    ensures Served(log, topics, st, [Round(appended, None)])
         == (log + appended, Polled(log + appended, topics, st, None))
  {
    assert [Round(appended, None)][..0] == [];
  }

  /** A poll that finds something sends it. */
  lemma PollSends(log: seq<Row>, topics: set<string>, st: Stream, i: nat)
    requires OrderOf(log, st.cursor).Some?
    requires var rows := After(log, OrderOf(log, st.cursor).value); i < |rows| && i < WINDOW && Matches(topics, rows[i])
    ensures Polled(log, topics, st, None).sent != st.sent
  {
    hide OrderOf, Window, Matches;
    EmptyReadIff(log, topics, st.cursor);
    var frames := ReadAnswer(log, topics, st.cursor, LIMIT).frames;
    assert |st.sent + frames| > |st.sent|;
  }

  /** For an open stream with a resolvable cursor: whatever is committed and however often it polls, it never
      sends anything if and only if 4096 rows follow its cursor and none of the first 4096 matches. */
  lemma StuckIff(log: seq<Row>, topics: set<string>, st: Stream)
    requires Committed(log) && OrderOf(log, st.cursor).Some? && !st.closed
    ensures NeverSends(log, topics, st) <==> Blocked(After(log, OrderOf(log, st.cursor).value), topics)
  {
    hide OrderOf, Committed, After, Matches, Served, Polled;
    var n := OrderOf(log, st.cursor).value;
    var rows := After(log, n);
    if Blocked(rows, topics) {
      EmptyReadIff(log, topics, st.cursor);
      forall rounds | Committed(Served(log, topics, st, rounds).0)
        ensures Served(log, topics, st, rounds).1.sent == st.sent
      {
        StuckForever(log, topics, st, rounds);
      }
    } else if i: nat :| i < |rows| && i < WINDOW && Matches(topics, rows[i]) {
      OneRound(log, topics, st, []);
      AddNil(log);
      PollSends(log, topics, st, i);
      assert Committed(Served(log, topics, st, [Round([], None)]).0);
    } else {
      var r := NextMatch(log, topics);
      var whole := log + [r];
      OneRound(log, topics, st, [r]);
      OrderStays(log, [r], st.cursor);
      OrderWithin(log, st.cursor);
      OneAfter(r, n);
      AfterAppend(log, [r], n);
      PollSends(whole, topics, st, |rows|);
      assert Committed(Served(log, topics, st, [Round([r], None)]).0);
    }
  }

  lemma OneAfter(r: Row, n: nat)
    requires r.order > n
    ensures After([r], n) == [r]
  {
    AllAfter([r], n);
  }

  /** It happens: behind 4096 events of another topic, an event of the subscribed topic is never sent. */
  lemma StuckLog(topic: string, other: string) returns (log: seq<Row>)
    requires topic != other
    ensures |log| == WINDOW + 1 && Committed(log) && Matches({topic}, log[WINDOW])
    ensures forall i | 0 <= i < WINDOW :: log[i].cursor.Some? && log[i].topic == Some(other) && log[i].profile.Some?
    ensures NeverSends(log, {topic}, Stream(None, false, []))
  {
    log := seq(WINDOW + 1, i requires 0 <= i <= WINDOW =>
      Row(i + 1, Some(Cursor(1, i + 1)), Some(if i < WINDOW then other else topic), Some(""), ""));
    assert forall i, j | 0 <= i < j < |log| :: Increasing(log, i, j);
    AllAfter(log, 0);
    StuckIff(log, {topic}, Stream(None, false, []));
  }

  // ---------- opening ----------

  /** Cursors are compared by lane, not by commit order: resuming from an event that is retained and was
      sent can be refused as gone. */
  lemma RetainedButGone(topic: string, profile: string)
    ensures var a, b := Cursor(2, 1), Cursor(1, 1);
            var log := [Row(1, Some(a), Some(topic), Some(profile), ""),
                        Row(2, Some(b), Some(topic), Some(profile), "")];
            && Committed(log) && OrderOf(log, Some(b)) == Some(2) && Opening(log, Some(b), None) == None
            && ReadAnswer(log, {topic}, None, LIMIT) == Frames([FrameOf(log[0]), FrameOf(log[1])])
  {
    var log := [Row(1, Some(Cursor(2, 1)), Some(topic), Some(profile), ""),
                Row(2, Some(Cursor(1, 1)), Some(topic), Some(profile), "")];
    assert Increasing(log, 0, 1);
    assert Committed(log);
    FoundAt(log, 1);
    assert log[..1] == [log[0]] && log[..0] == [] && [] + [log[0]] == [log[0]] && [log[0]] + [log[1]] == log;
    assert After([], 0) == [];
    assert After([log[0]], 0) == [] + [log[0]];
    assert After(log, 0) == [log[0]] + [log[1]];
    assert [] + [FrameOf(log[0])] == [FrameOf(log[0])];
    assert Filter({topic}, [log[0]]) == [FrameOf(log[0])];
    assert Filter({topic}, log) == [FrameOf(log[0]), FrameOf(log[1])];
  }

  /** A stream begins behind the cursor the client names, or else behind its last acknowledgement, with nothing sent,
      and is refused exactly when that cursor is before the earliest event's. */
  lemma OpensWhereAsked(log: seq<Row>, lastEventId: Option<Cursor>, lastAck: Option<Cursor>)
    ensures var asked := if lastEventId == None then lastAck else lastEventId;
            var stream := Opening(log, lastEventId, lastAck);
            && (stream.Some? ==> stream.value.cursor == asked && stream.value.sent == [] && !stream.value.closed)
            && (stream.None? <==> asked.Some? && log != [] && log[0].cursor.Some?
                                  && var a, first := asked.value, log[0].cursor.value;
                                     a.lane < first.lane || (a.lane == first.lane && a.record < first.record))
  {}

  /** A poll closes the stream if and only if its cursor stands for nothing any more, and then nothing is sent, or the
      client goes while the frames are written. */
  lemma ClosesIff(log: seq<Row>, topics: set<string>, st: Stream, cut: Option<nat>)
    requires !st.closed
    ensures var t := Polled(log, topics, st, cut);
            && (t.closed <==> OrderOf(log, st.cursor).None? || cut.Some?)
            && (OrderOf(log, st.cursor).None? ==> t.sent == st.sent && t.cursor == st.cursor)
  {
    hide Window, OrderOf;
  }

  /** A retained event is refused exactly when it precedes the earliest one in lane order, so never
      within the earliest event's own lane. */
  lemma RefusedIff(log: seq<Row>, i: nat)
    requires Committed(log) && i < |log| && log[i].cursor.Some? && log[0].cursor.Some?
    requires forall j | 0 <= j < |log| && log[j].cursor.Some? ::
               log[j].cursor.value.lane == log[0].cursor.value.lane
               ==> log[0].cursor.value.record <= log[j].cursor.value.record
    ensures Opening(log, log[i].cursor, None).None? <==> log[i].cursor.value.lane < log[0].cursor.value.lane
  {}
}
