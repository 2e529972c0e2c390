/** The event bus: one FIFO queue of emits, each a step machine between its suspension points. */
module EventBus {
  import opened Sequences

  const MAX_ENVELOPE_BYTES: nat := 262144

  /** An emit: the id of its envelope and the length of the envelope's JSON. */
  datatype Partial = Partial(id: nat, size: nat)

  predicate Fits(p: Partial) { p.size <= MAX_ENVELOPE_BYTES }

  datatype Reason = Capacity | Rotation

  /** A user event, or a `bus_overflow` naming the event that caused it. */
  datatype Body = User(id: nat) | Overflow(reason: Reason, cause: nat)

  datatype Event = Event(number: nat, body: Body)

  /** What an append to the log came to: it may throw with the line already in the file. */
  datatype Append = Written(rotated: bool) | Failed(written: bool)

  /** Where the running emit is suspended. */
  datatype Pc =
    | Idle
    | Blocking(event: Event)
    | Appending(event: Event, dropped: bool)
    | Diagnosing(event: Event, diagnostic: Event, more: seq<Reason>)

  datatype Outcome = Resolved(number: nat) | PersistError(number: nat) | TooLarge | Closed

  /** History of one sequence number: the event that took it, whether it entered the ring, and
      whether its append threw to the emitter. */
  datatype Issue = Issue(event: Event, kept: bool, threw: bool)

  datatype Config = Config(capacity: int, blocks: bool, throws: bool)

  /** The bus, with what it has done: `issued` by sequence number, `emitted` in call order and
      `outcomes` of the emits that are over. */
  datatype State = State(number: nat, ring: seq<Event>, log: seq<Event>, closed: bool, queue: seq<Partial>, pc: Pc,
                         issued: seq<Issue>, emitted: seq<Partial>, outcomes: seq<Outcome>)

  datatype Op = Emit(p: Partial) | Start | Unblock | Appended(result: Append) | Close

  const INITIAL := State(0, [], [], false, [], Idle, [], [], [])

  predicate Enabled(s: State, op: Op) {
    match op
    case Start => s.pc.Idle? && s.queue != []
    case Unblock => s.pc.Blocking?
    case Appended(_) => s.pc.Appending? || s.pc.Diagnosing?
    case _ => true
  }

  function Finish(s: State, o: Outcome): State { s.(pc := Idle, outcomes := s.outcomes + [o]) }

  /** The head of the queue runs up to its first suspension. */
  function Started(c: Config, s: State): State
    requires s.queue != []
  {
    var p, s := s.queue[0], s.(queue := s.queue[1..]);
    var e := Event(s.number + 1, User(p.id));
    if s.closed then Finish(s, Closed)
    else if p.size > MAX_ENVELOPE_BYTES then Finish(s, TooLarge)
    else if |s.ring| >= c.capacity then
      s.(number := s.number + 1, issued := s.issued + [Issue(e, false, false)],
         pc := if c.blocks then Blocking(e) else Appending(e, true))
    else
      s.(number := s.number + 1, issued := s.issued + [Issue(e, true, false)], ring := s.ring + [e],
         pc := Appending(e, false))
  }

  function Logged(s: State, e: Event, r: Append): State {
    if r.Written? || r.written then s.(log := s.log + [e]) else s
  }

  /** The append threw to the emitter. */
  function Threw(s: State, e: Event): State
    requires s.issued != []
  {
    var n := |s.issued| - 1;
    Finish(s.(issued := s.issued[..n] + [s.issued[n].(threw := true)]), PersistError(e.number))
  }

  /** The next diagnostic runs up to its append, or the emit is over. */
  function Diagnose(c: Config, s: State, e: Event, reasons: seq<Reason>): State
    requires e.body.User?
  {
    if reasons == [] then Finish(s, Resolved(e.number))
    else
      var d := Event(s.number + 1, Overflow(reasons[0], e.body.id));
      var ring := if |s.ring| >= c.capacity && s.ring != [] then s.ring[1..] else s.ring;
      s.(number := s.number + 1, issued := s.issued + [Issue(d, true, false)], ring := ring + [d],
         pc := Diagnosing(e, d, reasons[1..]))
  }

  /** Nothing suspended concerns anything but a user event, the last issued or its diagnostics. */
  predicate WellFormed(s: State) {
    match s.pc
    case Idle => true
    case Blocking(e) => e.body.User?
    case Appending(e, _) => e.body.User? && s.issued != []
    case Diagnosing(e, _, _) => e.body.User? && s.issued != []
  }

  function AfterAppend(c: Config, s: State, r: Append): State
    requires WellFormed(s) && Enabled(s, Appended(r))
  {
    var subject := if s.pc.Appending? then s.pc.event else s.pc.diagnostic;
    var s1 := Logged(s, subject, r);
    if r.Failed? && c.throws then Threw(s1, s.pc.event)
    else
      var reasons := if s.pc.Diagnosing? then s.pc.more
                     else (if s.pc.dropped then [Capacity] else [])
                          + if r.Written? && r.rotated then [Rotation] else [];
      Diagnose(c, s1, s.pc.event, reasons)
  }

  function Step(c: Config, s: State, op: Op): State
    requires WellFormed(s) && Enabled(s, op)
  {
    match op
    case Emit(p) => s.(queue := s.queue + [p], emitted := s.emitted + [p])
    case Start => Started(c, s)
    case Unblock => s.(pc := Appending(s.pc.event, true))
    case Appended(r) => AfterAppend(c, s, r)
    case Close => s.(closed := true)
  }

  // ---------- the bus object ----------

  class LatticeBus {
    const options: Config
    var number: nat
    var ring: seq<Event>
    var log: seq<Event>
    var closed: bool
    var queue: seq<Partial>
    var pc: Pc
    ghost var issued: seq<Issue>
    ghost var emitted: seq<Partial>
    ghost var outcomes: seq<Outcome>

    constructor (options: Config)
      ensures this.options == options && Now() == INITIAL
    {
      this.options := options;
      number, ring, log, closed, queue, pc := 0, [], [], false, [], Idle;
      issued, emitted, outcomes := [], [], [];
    }

    ghost function Now(): State
      reads this
    {
      State(number, ring, log, closed, queue, pc, issued, emitted, outcomes)
    }

    method Emit(p: Partial)
      modifies this
      ensures Now() == old(Now()).(queue := old(queue) + [p], emitted := old(emitted) + [p])
    {
      queue := queue + [p];
      emitted := emitted + [p];
    }

    method Close()
      modifies this`closed
      ensures Now() == old(Now()).(closed := true)
    {
      closed := true;
    }

    method Settle(ghost o: Outcome)
      modifies this`pc, this`outcomes
      ensures Now() == Finish(old(Now()), o)
    {
      pc := Idle;
      outcomes := outcomes + [o];
    }

    /** The head of the queue, up to its first suspension. */
    method Persist()
      requires pc.Idle? && queue != []
      modifies this
      ensures Now() == Started(options, old(Now()))
    {
      var p := queue[0];
      queue := queue[1..];
      if closed {
        Settle(Closed);
        return;
      }
      number := number + 1;
      var e := Event(number, User(p.id));
      if p.size > MAX_ENVELOPE_BYTES {
        number := number - 1;
        Settle(TooLarge);
        return;
      }
      if |ring| >= options.capacity {
        issued := issued + [Issue(e, false, false)];
        pc := if options.blocks then Blocking(e) else Appending(e, true);
      } else {
        ring := ring + [e];
        issued := issued + [Issue(e, true, false)];
        pc := Appending(e, false);
      }
    }

    method Unblock()
      requires pc.Blocking?
      modifies this`pc
      ensures Now() == old(Now()).(pc := Appending(old(pc).event, true))
    {
      pc := Appending(pc.event, true);
    }

    method WriteDiagnostic(event: Event, reason: Reason, more: seq<Reason>)
      requires event.body.User?
      modifies this`number, this`ring, this`pc, this`issued
      ensures Now() == Diagnose(options, old(Now()), event, [reason] + more)
    {
      number := number + 1;
      var d := Event(number, Overflow(reason, event.body.id));
      if |ring| >= options.capacity {
        ring := if ring == [] then [] else ring[1..];
      }
      ring := ring + [d];
      issued := issued + [Issue(d, true, false)];
      pc := Diagnosing(event, d, more);
      assert ([reason] + more)[1..] == more;
    }

    /** The append of the event, or of its diagnostic, is over. */
    method OnAppend(r: Append)
      requires WellFormed(Now()) && Enabled(Now(), Appended(r))
      modifies this
      ensures Now() == AfterAppend(options, old(Now()), r)
    {
      var event := pc.event;
      var subject := if pc.Appending? then event else pc.diagnostic;
      if r.Written? || r.written { log := log + [subject]; }
      if r.Failed? && options.throws {
        ghost var n := |issued| - 1;
        issued := issued[..n] + [issued[n].(threw := true)];
        Settle(PersistError(event.number));
        return;
      }
      var more: seq<Reason>;
      if pc.Diagnosing? {
        more := pc.more;
      } else {
        more := if r.Written? && r.rotated then [Rotation] else [];
        if pc.dropped {
          WriteDiagnostic(event, Capacity, more);
          return;
        }
        assert [] + more == more;
      }
      if more == [] {
        Settle(Resolved(event.number));
      } else {
        assert [more[0]] + more[1..] == more;
        WriteDiagnostic(event, more[0], more[1..]);
      }
    }
  }

  // ---------- what every step keeps ----------

  /** Sequence numbers are given out from 1 without gaps. */
  ghost predicate Numbered(s: State) {
    s.number == |s.issued| && forall i | 0 <= i < |s.issued| :: NumberedAt(s, i)
  }

  predicate NumberedAt(s: State, i: nat)
    requires i < |s.issued|
  {
    s.issued[i].event.number == i + 1
  }

  predicate Before(a: seq<Event>, i: nat, j: nat)
    requires i < |a| && j < |a|
  {
    a[i].number < a[j].number
  }

  ghost predicate Ascending(a: seq<Event>) { forall i, j | 0 <= i < j < |a| :: Before(a, i, j) }

  predicate IssuedIs(s: State, e: Event) { 1 <= e.number <= |s.issued| && s.issued[e.number - 1].event == e }

  /** The log holds issued events in ascending order, never the one being appended. */
  ghost predicate LogOrdered(s: State) { LogUpTo(s, Settled(s)) }

  ghost predicate LogUpTo(s: State, n: int) {
    Ascending(s.log) && forall k | 0 <= k < |s.log| :: LoggedAt(s, n, k)
  }

  predicate LoggedAt(s: State, n: int, k: nat)
    requires k < |s.log|
  {
    IssuedIs(s, s.log[k]) && s.log[k].number <= n
  }

  /** How many issued events have been through their append. */
  function Settled(s: State): int { if s.pc.Idle? then |s.issued| else |s.issued| - 1 }

  predicate InRing(s: State, e: Event) { IssuedIs(s, e) && s.issued[e.number - 1].kept }

  ghost predicate RingOrdered(s: State) {
    Ascending(s.ring) && forall k | 0 <= k < |s.ring| :: InRing(s, s.ring[k])
  }

  /** The emit in progress concerns the last issued event. */
  predicate PcMatches(s: State) {
    && WellFormed(s)
    && (!s.pc.Idle? ==> s.issued != [])
    && match s.pc
       case Idle => true
       case Blocking(e) => s.issued[|s.issued| - 1] == Issue(e, false, false)
       case Appending(e, dropped) => s.issued[|s.issued| - 1] == Issue(e, !dropped, false)
       case Diagnosing(e, d, _) => s.issued[|s.issued| - 1] == Issue(d, true, false) && IssuedIs(s, e)
  }

  /** The next number went to a `bus_overflow` that names event i. */
  predicate Reported(s: State, i: nat)
    requires i < |s.issued| && s.issued[i].event.body.User?
  {
    i + 1 < |s.issued| && s.issued[i + 1].event.body == Overflow(Capacity, s.issued[i].event.body.id)
  }

  /** The append of event i, kept out of the ring, is not over yet. */
  predicate DropPending(s: State, i: nat) { i + 1 == |s.issued| && (s.pc.Blocking? || s.pc.Appending?) }

  /** An event kept out of the ring is reported exactly when its append did not throw to the emitter. */
  predicate DropReported(s: State, i: nat)
    requires i < |s.issued|
  {
    s.issued[i].kept
    || (s.issued[i].event.body.User?
        && if DropPending(s, i) then !s.issued[i].threw else Reported(s, i) <==> !s.issued[i].threw)
  }

  ghost predicate DropsReported(s: State) { forall i | 0 <= i < |s.issued| :: DropReported(s, i) }

  /** Emits are served in call order. */
  predicate Fifo(s: State) {
    && |s.emitted| == |s.outcomes| + (if s.pc.Idle? then 0 else 1) + |s.queue|
    && s.queue == s.emitted[|s.emitted| - |s.queue|..]
    && (!s.pc.Idle? ==> IssuedIs(s, s.pc.event) && s.pc.event.body == User(s.emitted[|s.outcomes|].id))
  }

  predicate OutcomeTrue(s: State, i: nat)
    requires i < |s.outcomes| && |s.outcomes| <= |s.emitted|
  {
    match s.outcomes[i]
    case Resolved(n) => IssuedIs(s, Event(n, User(s.emitted[i].id)))
    case PersistError(n) => IssuedIs(s, Event(n, User(s.emitted[i].id)))
    case _ => true
  }

  ghost predicate OutcomesTrue(s: State) {
    |s.outcomes| <= |s.emitted| && forall i | 0 <= i < |s.outcomes| :: OutcomeTrue(s, i)
  }

  ghost predicate Rest(s: State) {
    Numbered(s) && RingOrdered(s) && PcMatches(s) && DropsReported(s) && Fifo(s) && OutcomesTrue(s)
  }

  ghost predicate Inv(s: State) { Rest(s) && LogOrdered(s) }

  /** Events issued after some others keep what was said of those. */
  ghost predicate Extends(s: State, t: State) {
    |s.issued| <= |t.issued| && forall i | 0 <= i < |s.issued| :: SameIssue(s, t, i)
  }

  predicate SameIssue(s: State, t: State, i: nat)
    requires i < |s.issued| && i < |t.issued|
  {
    s.issued[i].event == t.issued[i].event && s.issued[i].kept == t.issued[i].kept
    && (s.issued[i].threw ==> t.issued[i].threw)
  }

  lemma PushAscending(a: seq<Event>, e: Event)
    requires Ascending(a) && forall k | 0 <= k < |a| :: a[k].number < e.number
    ensures Ascending(a + [e])
  {
    var b := a + [e];
    forall i, j | 0 <= i < j < |b| ensures Before(b, i, j) {
      if j < |a| { assert Before(a, i, j); }
    }
  }

  lemma TailAscending(a: seq<Event>)
    requires Ascending(a) && a != []
    ensures Ascending(a[1..])
  {
    forall i, j | 0 <= i < j < |a| - 1 ensures Before(a[1..], i, j) { assert Before(a, i + 1, j + 1); }
  }

  /** One more event is issued and, if kept, enters the ring, from which the first may leave. */
  lemma IssueInv(s: State, e: Event, kept: bool, shift: bool, pc: Pc)
    requires Numbered(s) && RingOrdered(s) && e.number == s.number + 1
    requires shift ==> s.ring != []
    ensures var ring := (if shift then s.ring[1..] else s.ring) + if kept then [e] else [];
            var t := s.(number := s.number + 1, issued := s.issued + [Issue(e, kept, false)], ring := ring, pc := pc);
            Numbered(t) && RingOrdered(t) && Extends(s, t)
  {
    var base := if shift then s.ring[1..] else s.ring;
    var ring := base + if kept then [e] else [];
    var t := s.(number := s.number + 1, issued := s.issued + [Issue(e, kept, false)], ring := ring, pc := pc);
    forall i | 0 <= i < |t.issued| ensures NumberedAt(t, i) {
      if i < |s.issued| { assert NumberedAt(s, i); }
    }
    if shift { TailAscending(s.ring); }
    forall k | 0 <= k < |base| ensures InRing(t, base[k]) && base[k].number < e.number {
      assert InRing(s, s.ring[if shift then k + 1 else k]);
    }
    if kept {
      PushAscending(base, e);
      assert InRing(t, e);
    } else {
      assert base + [] == base;
    }
  }

  lemma LogGrows(s: State, m: int, t: State, n: int)
    requires LogUpTo(s, m) && Extends(s, t) && t.log == s.log && m <= n
    ensures LogUpTo(t, n)
  {
    forall k | 0 <= k < |t.log| ensures LoggedAt(t, n, k) {
      assert LoggedAt(s, m, k) && SameIssue(s, t, s.log[k].number - 1);
    }
  }

  lemma OutcomesGrow(s: State, t: State)
    requires OutcomesTrue(s) && Extends(s, t) && t.outcomes == s.outcomes && s.emitted <= t.emitted
    ensures OutcomesTrue(t)
  {
    forall i | 0 <= i < |t.outcomes| ensures OutcomeTrue(t, i) {
      assert OutcomeTrue(s, i);
      match s.outcomes[i] {
        case Resolved(n) => assert SameIssue(s, t, n - 1);
        case PersistError(n) => assert SameIssue(s, t, n - 1);
        case _ =>
      }
    }
  }

  lemma RingStays(s: State, t: State)
    requires RingOrdered(s) && Extends(s, t) && t.ring == s.ring
    ensures RingOrdered(t)
  {
    forall k | 0 <= k < |t.ring| ensures InRing(t, t.ring[k]) {
      assert InRing(s, s.ring[k]) && SameIssue(s, t, s.ring[k].number - 1);
    }
  }

  lemma StartInv(c: Config, s: State)
    requires Inv(s) && Enabled(s, Start)
    ensures Inv(Started(c, s))
  {
    var p, t := s.queue[0], Started(c, s);
    var n := |s.outcomes|;
    assert s.emitted[n] == p && t.queue == t.emitted[n + 1..];
    if s.closed || p.size > MAX_ENVELOPE_BYTES {
      assert t.issued == s.issued;
      assert forall i | 0 <= i < |s.issued| :: NumberedAt(s, i) ==> NumberedAt(t, i);
      assert Extends(s, t);
      RingStays(s, t);
      LogGrows(s, Settled(s), t, Settled(t));
      OutcomesGrow(s, t.(outcomes := s.outcomes));
      forall i | 0 <= i < |t.outcomes| ensures OutcomeTrue(t, i) {
        if i < n { assert OutcomeTrue(t.(outcomes := s.outcomes), i); }
      }
      assert forall i | 0 <= i < |s.issued| :: DropReported(s, i) ==> DropReported(t, i);
    } else {
      var e := Event(s.number + 1, User(p.id));
      var kept := |s.ring| < c.capacity;
      var queued := s.(queue := s.queue[1..]);
      assert forall i | 0 <= i < |s.issued| :: NumberedAt(s, i) ==> NumberedAt(queued, i);
      assert Extends(s, queued);
      RingStays(s, queued);
      IssueInv(queued, e, kept, false, t.pc);
      assert s.ring + [] == s.ring;
      LogGrows(s, Settled(s), t, Settled(t));
      OutcomesGrow(s, t);
      forall i | 0 <= i < |t.issued| ensures DropReported(t, i) {
        if i < |s.issued| { assert DropReported(s, i) && SameIssue(s, t, i); }
      }
    }
  }

  /** The log is no part of the rest. */
  lemma LogIrrelevant(s: State, log: seq<Event>)
    requires Rest(s)
    ensures Rest(s.(log := log)) && Extends(s, s.(log := log))
  {
    var t := s.(log := log);
    assert forall i | 0 <= i < |s.issued| :: NumberedAt(s, i) ==> NumberedAt(t, i);
    assert Extends(s, t);
    RingStays(s, t);
    OutcomesGrow(s, t);
    assert forall i | 0 <= i < |s.issued| :: DropReported(s, i) ==> DropReported(t, i);
  }

  /** The append of the last issued event, whatever came of it. */
  lemma LoggedInv(s: State, e: Event, r: Append)
    requires Inv(s) && !s.pc.Idle? && e == s.issued[|s.issued| - 1].event
    ensures Rest(Logged(s, e, r)) && LogUpTo(Logged(s, e, r), |s.issued|)
  {
    var t, n := Logged(s, e, r), |s.issued|;
    LogIrrelevant(s, t.log);
    assert NumberedAt(s, n - 1);
    forall k | 0 <= k < |s.log| ensures LoggedAt(s, n - 1, k) && s.log[k].number < e.number {
      assert LoggedAt(s, Settled(s), k);
    }
    PushAscending(s.log, e);
    forall k | 0 <= k < |t.log| ensures LoggedAt(t, n, k) {
      if k < |s.log| { assert LoggedAt(s, n - 1, k) && SameIssue(s, t, s.log[k].number - 1); }
    }
  }

  /** The emit in progress ends with an outcome about its own event. */
  lemma FinishInv(s: State, o: Outcome)
    requires Rest(s) && LogUpTo(s, |s.issued|)
    requires !s.pc.Idle? && (o == Resolved(s.pc.event.number) || o == PersistError(s.pc.event.number))
    requires s.issued[|s.issued| - 1].kept || s.issued[|s.issued| - 1].threw
    ensures Inv(Finish(s, o))
  {
    var t, n := Finish(s, o), |s.outcomes|;
    assert forall i | 0 <= i < |s.issued| :: NumberedAt(s, i) ==> NumberedAt(t, i);
    assert Extends(s, t);
    RingStays(s, t);
    LogGrows(s, |s.issued|, t, Settled(t));
    OutcomesGrow(s, t.(outcomes := s.outcomes));
    forall i | 0 <= i < |t.outcomes| ensures OutcomeTrue(t, i) {
      if i < n { assert OutcomeTrue(t.(outcomes := s.outcomes), i); }
    }
    forall i | 0 <= i < |t.issued| ensures DropReported(t, i) { assert DropReported(s, i); }
  }

  lemma ThrewInv(s: State)
    requires Rest(s) && LogUpTo(s, |s.issued|) && !s.pc.Idle? && !s.pc.Blocking?
    ensures Inv(Threw(s, s.pc.event))
  {
    var n := |s.issued| - 1;
    var marked := s.issued[..n] + [s.issued[n].(threw := true)];
    var e := s.pc.event;
    var t := Threw(s, e);
    var k := |s.outcomes|;
    assert forall i | 0 <= i < |s.issued| :: NumberedAt(s, i) ==> NumberedAt(t, i);
    assert forall i | 0 <= i < |s.issued| :: SameIssue(s, t, i);
    RingStays(s, t);
    LogGrows(s, |s.issued|, t, Settled(t));
    OutcomesGrow(s, t.(outcomes := s.outcomes));
    forall i | 0 <= i < |t.outcomes| ensures OutcomeTrue(t, i) {
      if i < k { assert OutcomeTrue(t.(outcomes := s.outcomes), i); } else { assert SameIssue(s, t, e.number - 1); }
    }
    forall i | 0 <= i < |t.issued| ensures DropReported(t, i) {
      assert DropReported(s, i) && SameIssue(s, t, i);
      if i + 1 < |s.issued| { assert SameIssue(s, t, i + 1); }
    }
  }

  lemma DiagnoseInv(c: Config, s: State, reasons: seq<Reason>)
    requires Rest(s) && LogUpTo(s, |s.issued|) && !s.pc.Idle? && !s.pc.Blocking?
    requires if s.issued[|s.issued| - 1].kept then true else reasons != [] && reasons[0] == Capacity
    ensures Inv(Diagnose(c, s, s.pc.event, reasons))
  {
    var e := s.pc.event;
    if reasons == [] {
      FinishInv(s, Resolved(e.number));
    } else {
      var t := Diagnose(c, s, e, reasons);
      var d := Event(s.number + 1, Overflow(reasons[0], e.body.id));
      var shift := |s.ring| >= c.capacity && s.ring != [];
      IssueInv(s, d, true, shift, t.pc);
      LogGrows(s, |s.issued|, t, Settled(t));
      OutcomesGrow(s, t);
      assert SameIssue(s, t, e.number - 1);
      forall i | 0 <= i < |t.issued| ensures DropReported(t, i) {
        if i < |s.issued| { assert DropReported(s, i) && SameIssue(s, t, i); }
      }
    }
  }

  lemma StepInv(c: Config, s: State, op: Op)
    requires Inv(s) && Enabled(s, op)
    ensures Inv(Step(c, s, op))
  {
    match op {
      case Start => StartInv(c, s);
      case Appended(r) =>
        var subject := if s.pc.Appending? then s.pc.event else s.pc.diagnostic;
        LoggedInv(s, subject, r);
        var s1 := Logged(s, subject, r);
        if r.Failed? && c.throws {
          ThrewInv(s1);
        } else {
          var reasons := if s.pc.Diagnosing? then s.pc.more
                         else (if s.pc.dropped then [Capacity] else [])
                              + if r.Written? && r.rotated then [Rotation] else [];
          DiagnoseInv(c, s1, reasons);
        }
      case _ => QuietInv(c, s, op);
    }
  }

  lemma QuietInv(c: Config, s: State, op: Op)
    requires Inv(s) && Enabled(s, op) && (op.Emit? || op.Unblock? || op.Close?)
    ensures Inv(Step(c, s, op))
  {
    var t := Step(c, s, op);
    assert forall i | 0 <= i < |s.issued| :: NumberedAt(s, i) ==> NumberedAt(t, i);
    assert Extends(s, t);
    RingStays(s, t);
    LogGrows(s, Settled(s), t, Settled(t));
    OutcomesGrow(s, t);
    forall i | 0 <= i < |t.issued| ensures DropReported(t, i) { assert DropReported(s, i); }
    assert forall i | 0 <= i < |s.emitted| :: t.emitted[i] == s.emitted[i];
  }

  // ---------- every run ----------

  /** Something that cannot happen now does not. */
  ghost function Next(c: Config, s: State, op: Op): State {
    if WellFormed(s) && Enabled(s, op) then Step(c, s, op) else s
  }

  ghost function Run(c: Config, ops: seq<Op>): State {
    if ops == [] then INITIAL else Next(c, Run(c, ops[..|ops| - 1]), ops[|ops| - 1])
  }

  /** For every interleaving of emits, suspensions, append failures and close: numbers are issued
      from 1 without gaps, the log and the ring ascend, drops are reported at the next number, and
      emits are served in call order. */
  lemma {:induction false} RunInv(c: Config, ops: seq<Op>)
    ensures Inv(Run(c, ops))
  {
    if ops != [] {
      RunInv(c, ops[..|ops| - 1]);
      if Enabled(Run(c, ops[..|ops| - 1]), ops[|ops| - 1]) { StepInv(c, Run(c, ops[..|ops| - 1]), ops[|ops| - 1]); }
    }
  }

  ghost predicate NoFailures(ops: seq<Op>) {
    forall i | 0 <= i < |ops| && ops[i].Appended? :: ops[i].result.Written?
  }

  predicate LoggedIs(s: State, i: nat)
    requires i < |s.log| && i < |s.issued|
  {
    s.log[i] == s.issued[i].event
  }

  ghost predicate LogIs(s: State, n: int) {
    0 <= n == |s.log| <= |s.issued| && forall i | 0 <= i < n :: LoggedIs(s, i)
  }

  lemma LogIsStays(s: State, n: int, t: State)
    requires LogIs(s, n) && t.log == s.log && |s.issued| <= |t.issued|
    requires forall i | 0 <= i < |s.issued| :: t.issued[i].event == s.issued[i].event
    ensures LogIs(t, n)
  {
    forall i | 0 <= i < n ensures LoggedIs(t, i) { assert LoggedIs(s, i); }
  }

  lemma LogIsPush(s: State, r: Append)
    requires LogIs(s, |s.issued| - 1) && r.Written? && s.issued != []
    ensures LogIs(Logged(s, s.issued[|s.issued| - 1].event, r), |s.issued|)
  {
    var t := Logged(s, s.issued[|s.issued| - 1].event, r);
    forall i | 0 <= i < |s.issued| ensures LoggedIs(t, i) {
      if i < |s.issued| - 1 { assert LoggedIs(s, i); }
    }
  }

  lemma LogStep(c: Config, s: State, op: Op)
    requires Inv(s) && Enabled(s, op) && LogIs(s, Settled(s)) && (op.Appended? ==> op.result.Written?)
    ensures LogIs(Step(c, s, op), Settled(Step(c, s, op)))
  {
    hide Numbered, RingOrdered, DropsReported, Fifo, OutcomesTrue, LogOrdered, LogIs;
    var t := Step(c, s, op);
    if op.Appended? {
      var last := s.issued[|s.issued| - 1].event;
      LogIsPush(s, op.result);
      LogIsStays(Logged(s, last, op.result), |s.issued|, t);
    } else {
      LogIsStays(s, Settled(s), t);
    }
  }

  lemma {:induction false} LogComplete(c: Config, ops: seq<Op>)
    requires NoFailures(ops)
    ensures var s := Run(c, ops); LogIs(s, Settled(s))
  {
    if ops != [] {
      var front, op := ops[..|ops| - 1], ops[|ops| - 1];
      LogComplete(c, front);
      RunInv(c, front);
      if Enabled(Run(c, front), op) { LogStep(c, Run(c, front), op); }
    }
  }

  /** While appends succeed, what is in the log is exactly 1, 2, ... up to `seq()`, but for the event
      being appended. */
  lemma LogHasEveryNumber(c: Config, ops: seq<Op>)
    requires NoFailures(ops)
    ensures var s := Run(c, ops);
            && |s.log| == s.number - (if s.pc.Idle? then 0 else 1)
            && forall i | 0 <= i < |s.log| :: s.log[i].number == i + 1
  {
    var s := Run(c, ops);
    RunInv(c, ops);
    LogComplete(c, ops);
    forall i | 0 <= i < |s.log| ensures s.log[i].number == i + 1 {
      assert LoggedIs(s, i) && NumberedAt(s, i);
    }
  }

  ghost predicate NoneThrew(s: State) { forall i | 0 <= i < |s.issued| :: !s.issued[i].threw }

  lemma {:induction false} NoneThrewWhenLogging(c: Config, ops: seq<Op>)
    requires !c.throws
    ensures NoneThrew(Run(c, ops))
  {
    if ops != [] {
      NoneThrewWhenLogging(c, ops[..|ops| - 1]);
    }
  }

  /** For every configuration, an event kept out of the ring and no longer in progress is followed at the
      next number by a `bus_overflow` that names it if and only if its own append did not throw to the
      emitter. */
  lemma DropReportedIff(c: Config, ops: seq<Op>, i: nat)
    requires i < |Run(c, ops).issued| && !Run(c, ops).issued[i].kept && !DropPending(Run(c, ops), i)
    ensures var s := Run(c, ops);
            && s.issued[i].event.body.User?
            && (!s.issued[i].threw <==>
                  && i + 1 < |s.issued| && s.issued[i + 1].event.number == s.issued[i].event.number + 1
                  && s.issued[i + 1].event.body == Overflow(Capacity, s.issued[i].event.body.id))
  {
    var s := Run(c, ops);
    RunInv(c, ops);
    assert DropReported(s, i) && NumberedAt(s, i);
    if i + 1 < |s.issued| { assert NumberedAt(s, i + 1); }
  }

  /** With `persist_fail` "log" no append throws, so every such event is reported, even if appends fail. */
  lemma EveryDropReported(c: Config, ops: seq<Op>, i: nat)
    requires !c.throws && i < |Run(c, ops).issued| && !Run(c, ops).issued[i].kept
    ensures var s := Run(c, ops);
            DropPending(s, i) || (s.issued[i].event.body.User? && Reported(s, i))
  {
    NoneThrewWhenLogging(c, ops);
    if !DropPending(Run(c, ops), i) { DropReportedIff(c, ops, i); }
  }

  /** A bus of capacity 1 whose ring is full, with one more emit to come. */
  lemma FilledRing(c: Config, p: Partial, q: Partial) returns (ops: seq<Op>)
    requires c.capacity == 1 && Fits(p)
    ensures var d := Event(1, User(p.id));
            Run(c, ops)
            == INITIAL.(number := 1, ring := [d], log := [d], queue := [q], issued := [Issue(d, true, false)],
                                    emitted := [p, q], outcomes := [Resolved(1)])
  {
    hide Run;
    RunNone(c);
    RunPush(c, [], Emit(p));
    ops := [] + [Emit(p)];
    RunPush(c, ops, Emit(q));
    ops := ops + [Emit(q)];
    assert Run(c, ops) == INITIAL.(queue := [p, q], emitted := [p, q]);
    RunPush(c, ops, Start);
    ops := ops + [Start];
    RunPush(c, ops, Appended(Written(false)));
    ops := ops + [Appended(Written(false))];
  }

  /** With `persist_fail` "throw", a failed append of an event that found the ring full leaves no report. */
  lemma ThrowLeavesNoReport(c: Config, written: bool) returns (ops: seq<Op>)
    requires c.throws && c.capacity == 1
    ensures var s := Run(c, ops);
            && s.pc == Idle && s.number == |s.issued| == 2 && !s.issued[1].kept && s.ring == [Event(1, User(0))]
            && s.outcomes == [Resolved(1), PersistError(2)]
  {
    hide Run;
    var e := Event(2, User(1));
    ops := FilledRing(c, Partial(0, 0), Partial(1, 0));
    var s := Run(c, ops);
    RunPush(c, ops, Start);
    ops := ops + [Start];
    if c.blocks {
      RunPush(c, ops, Unblock);
      ops := ops + [Unblock];
    }
    assert Run(c, ops)
        == s.(number := 2, queue := [], issued := s.issued + [Issue(e, false, false)], pc := Appending(e, true));
    RunPush(c, ops, Appended(Failed(written)));
    ops := ops + [Appended(Failed(written))];
  }

  lemma {:induction false} RingWithin(c: Config, ops: seq<Op>)
    ensures |Run(c, ops).ring| <= if c.capacity >= 1 then c.capacity else 1
  {
    if ops != [] {
      RingWithin(c, ops[..|ops| - 1]);
    }
  }

  /** The ring outgrows its capacity in some run exactly when the capacity is below 1. */
  lemma RingBoundedIff(c: Config)
    ensures (forall ops :: |Run(c, ops).ring| <= c.capacity) <==> c.capacity >= 1
  {
    if c.capacity >= 1 {
      forall ops ensures |Run(c, ops).ring| <= c.capacity { RingWithin(c, ops); }
    } else {
      var ops := Overflowing(c);
      assert |Run(c, ops).ring| == 1;
    }
  }

  lemma RunNone(c: Config)
    ensures Run(c, []) == INITIAL
  {}

  lemma RunPush(c: Config, ops: seq<Op>, op: Op)
    ensures Run(c, ops + [op]) == Next(c, Run(c, ops), op)
  {
    Unsnoc(ops, op);
  }

  /** One emit into a bus without capacity leaves its diagnostic in the ring. */
  lemma Overflowing(c: Config) returns (ops: seq<Op>)
    requires c.capacity < 1
    ensures |Run(c, ops).ring| == 1
  {
    hide Run;
    var p := Partial(0, 0);
    var e := Event(1, User(0));
    var s1 := INITIAL.(queue := [p], emitted := [p]);
    RunPush(c, [], Emit(p));
    RunNone(c);
    ops := [] + [Emit(p)];
    assert Run(c, ops) == s1;
    var issued := [Issue(e, false, false)];
    var s2 := s1.(queue := [], number := 1, issued := issued,
                  pc := if c.blocks then Blocking(e) else Appending(e, true));
    RunPush(c, ops, Start);
    ops := ops + [Start];
    assert Run(c, ops) == s2;
    if c.blocks {
      RunPush(c, ops, Unblock);
      ops := ops + [Unblock];
    }
    assert Run(c, ops) == s2.(pc := Appending(e, true));
    RunPush(c, ops, Appended(Written(false)));
    ops := ops + [Appended(Written(false))];
  }

  // ---------- after the close ----------

  lemma {:induction false} ClosedIff(c: Config, ops: seq<Op>)
    ensures Run(c, ops).closed <==> Close in ops
  {
    if ops != [] {
      ClosedIff(c, ops[..|ops| - 1]);
      RunInv(c, ops[..|ops| - 1]);
      Snoc(ops);
      assert forall x :: x in ops <==> x in ops[..|ops| - 1] || x == ops[|ops| - 1];
    }
  }

  /** Over every run: a turn taken after the close ends as closed and leaves no trace. Before the close an oversize
      envelope is refused; any other takes the next number and enters the ring if there is room. */
  lemma TurnAfterClose(c: Config, ops: seq<Op>)
    requires Enabled(Run(c, ops), Start)
    ensures var s, t := Run(c, ops), Run(c, ops + [Start]);
            && t.queue == s.queue[1..] && s.outcomes <= t.outcomes
            && (Close in ops ==> t == s.(queue := s.queue[1..], outcomes := s.outcomes + [Closed]))
            && (Close !in ops && s.queue[0].size > 262144 ==>
                  t == s.(queue := s.queue[1..], outcomes := s.outcomes + [TooLarge]))
            && (Close !in ops && s.queue[0].size <= 262144 ==>
                  var e, room := Event(s.number + 1, User(s.queue[0].id)), |s.ring| < c.capacity;
                  && t.number == s.number + 1 && t.outcomes == s.outcomes && t.log == s.log
                  && t.issued == s.issued + [Issue(e, room, false)] && t.ring == s.ring + (if room then [e] else [])
                  && t.pc == if !room && c.blocks then Blocking(e) else Appending(e, !room))
  {
    hide Run;
    RunInv(c, ops);
    ClosedIff(c, ops);
    RunPush(c, ops, Start);
  }

  // ---------- what is in the log ----------

  /** Over every run: the log takes the event issued last, whenever its append puts a line in the file, even one that
      then throws, and nothing else. */
  lemma LogTakesTheLastIssued(c: Config, ops: seq<Op>, op: Op)
    requires Enabled(Run(c, ops), op)
    ensures var s, t := Run(c, ops), Run(c, ops + [op]);
            if op.Appended? && op.result != Failed(false)
            then s.issued != [] && t.log == s.log + [s.issued[|s.issued| - 1].event]
            else t.log == s.log
  {
    hide Run;
    RunInv(c, ops);
    RunPush(c, ops, op);
    hide LogOrdered, RingOrdered, DropsReported, Fifo, OutcomesTrue;
    var s := Run(c, ops);
    if s.issued != [] { assert NumberedAt(s, |s.issued| - 1); }
  }

  // ---------- rotations ----------

  lemma StepKeepsIssued(c: Config, s: State, op: Op)
    ensures Extends(s, Next(c, s, op))
  {
    if WellFormed(s) && Enabled(s, op) {
      assert forall i | 0 <= i < |s.issued| :: SameIssue(s, Step(c, s, op), i);
    }
  }

  lemma {:induction false} IssuedStays(c: Config, ops: seq<Op>, more: seq<Op>)
    ensures Extends(Run(c, ops), Run(c, ops + more))
  {
    if more == [] {
      AddNil(ops);
      assert forall i | 0 <= i < |Run(c, ops).issued| :: SameIssue(Run(c, ops), Run(c, ops), i);
    } else {
      var front, op := more[..|more| - 1], more[|more| - 1];
      IssuedStays(c, ops, front);
      Snoc(more);
      Assoc(ops, front, [op]);
      RunPush(c, ops + front, op);
      StepKeepsIssued(c, Run(c, ops + front), op);
      var s, t, u := Run(c, ops), Run(c, ops + front), Run(c, ops + more);
      forall i | 0 <= i < |s.issued| ensures SameIssue(s, u, i) {
        assert SameIssue(s, t, i) && SameIssue(t, u, i);
      }
    }
  }

  /** The number was given to this diagnostic. */
  predicate Issued(s: State, n: nat, body: Body) { n < |s.issued| && s.issued[n].event.body == body }

  /** The rotation met by the append of event number n is reported: at the next number, or behind the report that
      the event was dropped, unless the append of that report threw or is not over. */
  predicate RotationReported(s: State, n: nat, dropped: bool, id: nat) {
    if !dropped then Issued(s, n, Overflow(Rotation, id))
    else
      && Issued(s, n, Overflow(Capacity, id))
      && (|| Issued(s, n + 1, Overflow(Rotation, id)) || s.issued[n].threw
          || (|s.issued| == n + 1 && s.pc.Diagnosing? && s.pc.more == [Rotation] && s.pc.event.body == User(id)))
  }

  lemma RotationStep(c: Config, s: State, op: Op, n: nat, dropped: bool, id: nat)
    requires RotationReported(s, n, dropped, id)
    ensures RotationReported(Next(c, s, op), n, dropped, id)
  {
    var t := Next(c, s, op);
    StepKeepsIssued(c, s, op);
    assert SameIssue(s, t, n);
    if n + 1 < |s.issued| { assert SameIssue(s, t, n + 1); }
  }

  /** Over every run: an append of an event that rotated the log is followed by its report. */
  lemma LastNumber(s: State)
    requires Inv(s) && s.pc.Appending?
    ensures s.pc.event.body.User? && s.pc.event.number == |s.issued|
  {
    assert NumberedAt(s, |s.issued| - 1);
  }

  lemma RotationStarts(c: Config, s: State)
    requires Inv(s) && s.pc.Appending?
    ensures s.pc.event.body.User? && s.pc.event.number == |s.issued|
    ensures RotationReported(Next(c, s, Appended(Written(true))), |s.issued|, s.pc.dropped, s.pc.event.body.id)
  {
    LastNumber(s);
    assert [Capacity] + [Rotation] == [Capacity, Rotation] && [Capacity, Rotation][1..] == [Rotation];
    assert [] + [Rotation] == [Rotation];
  }

  lemma {:induction false} RotationFollows(c: Config, ops: seq<Op>, more: seq<Op>)
    requires Run(c, ops).pc.Appending?
    ensures var s := Run(c, ops);
            s.pc.event.body.User? && s.pc.event.number == |s.issued|
            && RotationReported(Run(c, ops + [Appended(Written(true))] + more), |s.issued|, s.pc.dropped,
                                s.pc.event.body.id)
  {
    hide Run;
    var s, whole := Run(c, ops), ops + [Appended(Written(true))];
    RunInv(c, ops);
    if more == [] {
      RunPush(c, ops, Appended(Written(true)));
      AddNil(whole);
      RotationStarts(c, s);
    } else {
      hide Inv, RotationReported;
      LastNumber(s);
      var front, op := more[..|more| - 1], more[|more| - 1];
      RotationFollows(c, ops, front);
      Snoc(more);
      Assoc(whole, front, [op]);
      RunPush(c, whole + front, op);
      RotationStep(c, Run(c, whole + front), op, |s.issued|, s.pc.dropped, s.pc.event.body.id);
    }
  }

  // ---------- what is in the ring ----------

  /** The events that entered the ring, in order. */
  function KeptEvents(issued: seq<Issue>): seq<Event> {
    if issued == [] then []
    else
      KeptEvents(issued[..|issued| - 1])
      + if issued[|issued| - 1].kept then [issued[|issued| - 1].event] else []
  }

  predicate IsSuffix(a: seq<Event>, b: seq<Event>) { |a| <= |b| && a == b[|b| - |a|..] }

  lemma KeptPush(issued: seq<Issue>, e: Event, kept: bool)
    ensures KeptEvents(issued + [Issue(e, kept, false)]) == KeptEvents(issued) + if kept then [e] else []
  {
    Unsnoc(issued, Issue(e, kept, false));
  }

  lemma KeptMarked(issued: seq<Issue>)
    requires issued != []
    ensures var n := |issued| - 1; KeptEvents(issued[..n] + [issued[n].(threw := true)]) == KeptEvents(issued)
  {
    Unsnoc(issued[..|issued| - 1], issued[|issued| - 1].(threw := true));
  }

  lemma SuffixPush(a: seq<Event>, b: seq<Event>, e: Event)
    requires IsSuffix(a, b)
    ensures IsSuffix(a + [e], b + [e]) && (a != [] ==> IsSuffix(a[1..] + [e], b + [e]))
  {}

  /** The last of the events that entered it, as many as it takes. */
  predicate IsRecent(c: Config, s: State) {
    var kept, room := KeptEvents(s.issued), if c.capacity < 1 then 1 else c.capacity;
    IsSuffix(s.ring, kept) && |s.ring| == if |kept| < room then |kept| else room
  }

  lemma RecentIssues(c: Config, s: State, t: State, e: Event, kept: bool)
    requires IsRecent(c, s) && t.issued == s.issued + [Issue(e, kept, false)]
    requires var shifts := |s.ring| >= c.capacity && s.ring != [];
             if kept then t.ring == (if shifts then s.ring[1..] else s.ring) + [e]
             else t.ring == s.ring && |s.ring| >= c.capacity
    ensures IsRecent(c, t)
  {
    hide KeptEvents, IsSuffix;
    KeptPush(s.issued, e, kept);
    AddNil(KeptEvents(s.issued));
    SuffixPush(s.ring, KeptEvents(s.issued), e);
  }

  lemma RecentStays(c: Config, s: State, t: State)
    requires IsRecent(c, s) && t.ring == s.ring
    requires t.issued == s.issued || (s.issued != []
               && t.issued == s.issued[..|s.issued| - 1] + [s.issued[|s.issued| - 1].(threw := true)])
    ensures IsRecent(c, t)
  {
    hide KeptEvents, IsSuffix;
    if s.issued != [] { KeptMarked(s.issued); }
  }

  lemma RecentStart(c: Config, s: State)
    requires IsRecent(c, s) && s.queue != []
    ensures IsRecent(c, Started(c, s))
  {
    hide IsRecent;
    var e := Event(s.number + 1, User(s.queue[0].id));
    if s.closed || s.queue[0].size > MAX_ENVELOPE_BYTES {
      RecentStays(c, s, Started(c, s));
    } else {
      RecentIssues(c, s, Started(c, s), e, |s.ring| < c.capacity);
    }
  }

  lemma RecentAppend(c: Config, s: State, r: Append)
    requires IsRecent(c, s) && WellFormed(s) && Enabled(s, Appended(r))
    ensures IsRecent(c, AfterAppend(c, s, r))
  {
    hide IsRecent;
    var t := AfterAppend(c, s, r);
    if |t.issued| > |s.issued| {
      RecentIssues(c, s, t, t.issued[|s.issued|].event, true);
    } else {
      RecentStays(c, s, t);
    }
  }

  lemma RecentStep(c: Config, s: State, op: Op)
    requires IsRecent(c, s) && Enabled(s, op) && WellFormed(s)
    ensures IsRecent(c, Step(c, s, op))
  {
    hide IsRecent;
    match op {
      case Start => RecentStart(c, s);
      case Appended(r) => RecentAppend(c, s, r);
      case _ => RecentStays(c, s, Step(c, s, op));
    }
  }

  /** Over every run: the ring holds the last of the events that entered it, in order, up to its capacity. */
  lemma {:induction false} RingIsRecent(c: Config, ops: seq<Op>)
    ensures IsRecent(c, Run(c, ops))
  {
    if ops != [] {
      hide IsRecent, Step;
      var front := ops[..|ops| - 1];
      RingIsRecent(c, front);
      RunInv(c, front);
      if Enabled(Run(c, front), ops[|ops| - 1]) { RecentStep(c, Run(c, front), ops[|ops| - 1]); }
    }
  }

  // ---------- oversize envelopes ----------

  function Fitting(ps: seq<Partial>): seq<Partial> {
    if ps == [] then [] else (if Fits(ps[0]) then [ps[0]] else []) + Fitting(ps[1..])
  }

  /** The outcomes of the emits that fit. */
  function OutcomesOfFitting(ps: seq<Partial>, outcomes: seq<Outcome>): seq<Outcome>
    requires |outcomes| <= |ps|
  {
    if outcomes == [] then []
    else
      var n := |outcomes| - 1;
      OutcomesOfFitting(ps, outcomes[..n]) + if Fits(ps[n]) then [outcomes[n]] else []
  }

  /** The emit of an oversize envelope, or its turn in the queue. */
  predicate AboutOversize(s: State, op: Op) {
    || (op.Emit? && !Fits(op.p))
    || (op.Start? && Enabled(s, op) && !Fits(s.queue[0]))
  }

  /** The run without its oversize emits. */
  ghost function WithoutOversize(c: Config, ops: seq<Op>): seq<Op> {
    if ops == [] then []
    else
      var front, op := ops[..|ops| - 1], ops[|ops| - 1];
      WithoutOversize(c, front) + if AboutOversize(Run(c, front), op) then [] else [op]
  }

  /** The bus as if no oversize envelope had been emitted. */
  function Slim(s: State): State
    requires |s.outcomes| <= |s.emitted|
  {
    s.(queue := Fitting(s.queue), emitted := Fitting(s.emitted), outcomes := OutcomesOfFitting(s.emitted, s.outcomes))
  }

  lemma {:induction false} FittingPush(ps: seq<Partial>, p: Partial)
    ensures Fitting(ps + [p]) == Fitting(ps) + if Fits(p) then [p] else []
  {
    if ps != [] {
      FittingPush(ps[1..], p);
      assert (ps + [p])[1..] == ps[1..] + [p];
    } else {
      assert [p][1..] == [];
    }
  }

  lemma {:induction false} OutcomesStay(ps: seq<Partial>, p: Partial, outcomes: seq<Outcome>)
    requires |outcomes| <= |ps|
    ensures OutcomesOfFitting(ps + [p], outcomes) == OutcomesOfFitting(ps, outcomes)
  {
    if outcomes != [] { OutcomesStay(ps, p, outcomes[..|outcomes| - 1]); }
  }

  lemma OutcomesPush(ps: seq<Partial>, outcomes: seq<Outcome>, o: Outcome)
    requires |outcomes| < |ps|
    ensures OutcomesOfFitting(ps, outcomes + [o])
         == OutcomesOfFitting(ps, outcomes) + if Fits(ps[|outcomes|]) then [o] else []
  {
    Unsnoc(outcomes, o);
  }

  /** The emit in progress fits. */
  predicate InProgressFits(s: State) {
    !s.pc.Idle? ==> |s.outcomes| < |s.emitted| && Fits(s.emitted[|s.outcomes|])
  }

  lemma SlimStart(c: Config, s: State)
    requires Inv(s) && Enabled(s, Start)
    ensures InProgressFits(Started(c, s))
    ensures Slim(Started(c, s)) == if Fits(s.queue[0]) then Started(c, Slim(s)) else Slim(s)
  {
    var n := |s.outcomes|;
    assert s.queue[0] == s.emitted[n];
    OutcomesPush(s.emitted, s.outcomes, Closed);
    OutcomesPush(s.emitted, s.outcomes, TooLarge);
    assert Fits(s.queue[0]) ==> Fitting(s.queue)[0] == s.queue[0] && Fitting(s.queue)[1..] == Fitting(s.queue[1..]);
  }

  /** Ending the emit in progress, and issuing for it, do not depend on the oversize ones. */
  lemma SlimFinish(s: State, o: Outcome)
    requires InProgressFits(s) && !s.pc.Idle?
    ensures InProgressFits(Finish(s, o)) && Slim(Finish(s, o)) == Finish(Slim(s), o)
  {
    OutcomesPush(s.emitted, s.outcomes, o);
  }

  lemma SlimAppended(c: Config, s: State, r: Append)
    requires WellFormed(s) && Enabled(s, Appended(r)) && InProgressFits(s)
    ensures InProgressFits(AfterAppend(c, s, r)) && Slim(AfterAppend(c, s, r)) == AfterAppend(c, Slim(s), r)
  {
    hide Finish, Fitting, OutcomesOfFitting;
    var s1 := Logged(s, if s.pc.Appending? then s.pc.event else s.pc.diagnostic, r);
    var n := |s.issued| - 1;
    if r.Failed? && c.throws {
      SlimFinish(s1.(issued := s1.issued[..n] + [s1.issued[n].(threw := true)]), PersistError(s.pc.event.number));
    } else {
      SlimFinish(s1, Resolved(s.pc.event.number));
    }
  }

  lemma SlimEmit(s: State, p: Partial)
    requires InProgressFits(s) && |s.outcomes| <= |s.emitted|
    ensures var t := s.(queue := s.queue + [p], emitted := s.emitted + [p]);
            InProgressFits(t)
            && Slim(t) == if Fits(p) then Slim(s).(queue := Slim(s).queue + [p], emitted := Slim(s).emitted + [p])
                          else Slim(s)
  {
    hide Fitting, OutcomesOfFitting, Fits;
    FittingPush(s.queue, p);
    FittingPush(s.emitted, p);
    OutcomesStay(s.emitted, p, s.outcomes);
    AddNil(Fitting(s.queue));
    AddNil(Fitting(s.emitted));
  }

  lemma SlimStep(c: Config, s: State, op: Op)
    requires Inv(s) && InProgressFits(s)
    ensures var t := Next(c, s, op);
            InProgressFits(t) && |t.outcomes| <= |t.emitted|
            && Slim(t) == if AboutOversize(s, op) then Slim(s) else Next(c, Slim(s), op)
  {
    hide Numbered, RingOrdered, DropsReported, OutcomesTrue, LogOrdered, OutcomesOfFitting, InProgressFits;
    match op {
      case Emit(p) =>
        hide Fifo, Fitting;
        CountsAgree(s);
        SlimEmit(s, p);
      case Start =>
        hide Started;
        CountsAgree(s);
        if Enabled(s, Start) {
          SlimStart(c, s);
          StepInv(c, s, Start);
          CountsAgree(Started(c, s));
        }
      case Appended(r) =>
        hide AfterAppend, Fitting;
        CountsAgree(s);
        if Enabled(s, op) {
          SlimAppended(c, s, r);
          StepInv(c, s, op);
          CountsAgree(AfterAppend(c, s, r));
        }
      case _ =>
        hide Fitting;
        CountsAgree(s);
        SlimQuiet(s, op);
    }
  }

  lemma CountsAgree(s: State)
    requires Inv(s)
    ensures |s.outcomes| <= |s.emitted|
  {}

  lemma SlimQuiet(s: State, op: Op)
    requires InProgressFits(s)
    ensures InProgressFits(s.(closed := true))
    ensures s.pc.Blocking? ==> InProgressFits(s.(pc := Appending(s.pc.event, true)))
  {}

  /** Over every run: without its oversize emits the bus has the same numbers, ring, log and issued events,
      and every other emit has the same outcome. */
  lemma {:induction false} OversizeChangesNothing(c: Config, ops: seq<Op>)
    ensures var s, t := Run(c, ops), Run(c, WithoutOversize(c, ops));
            && (t.number, t.ring, t.log, t.closed, t.pc, t.issued)
               == (s.number, s.ring, s.log, s.closed, s.pc, s.issued)
            && |s.outcomes| <= |s.emitted| && t.emitted == Fitting(s.emitted)
            && t.outcomes == OutcomesOfFitting(s.emitted, s.outcomes)
  {
    SlimRun(c, ops);
  }

  lemma {:induction false} SlimRun(c: Config, ops: seq<Op>)
    ensures InProgressFits(Run(c, ops)) && |Run(c, ops).outcomes| <= |Run(c, ops).emitted|
    ensures Run(c, WithoutOversize(c, ops)) == Slim(Run(c, ops))
  {
    if ops != [] {
      var front, op := ops[..|ops| - 1], ops[|ops| - 1];
      SlimRun(c, front);
      RunInv(c, front);
      SlimStep(c, Run(c, front), op);
      if AboutOversize(Run(c, front), op) {
        AddNil(WithoutOversize(c, front));
      } else {
        RunPush(c, WithoutOversize(c, front), op);
      }
    }
  }

  /** An oversize envelope is refused in its turn and gets no number. */
  lemma OversizeIsRefused(c: Config, ops: seq<Op>, i: nat)
    requires i < |Run(c, ops).outcomes| && i < |Run(c, ops).emitted| && !Fits(Run(c, ops).emitted[i])
    ensures Run(c, ops).outcomes[i].TooLarge? || Run(c, ops).outcomes[i].Closed?
  {
    OversizeOutcome(c, ops);
  }

  ghost predicate OversizeRefused(s: State) {
    |s.outcomes| <= |s.emitted|
    && forall i | 0 <= i < |s.outcomes| && !Fits(s.emitted[i]) :: s.outcomes[i].TooLarge? || s.outcomes[i].Closed?
  }

  lemma RefusedStep(c: Config, s: State, op: Op)
    requires WellFormed(s) && Enabled(s, op) && Fifo(s) && InProgressFits(s) && OversizeRefused(s)
    ensures OversizeRefused(Step(c, s, op))
  {
    match op {
      case Start => assert s.queue[0] == s.emitted[|s.outcomes|];
      case _ =>
    }
  }

  lemma {:induction false} OversizeOutcome(c: Config, ops: seq<Op>)
    ensures OversizeRefused(Run(c, ops))
  {
    hide OversizeRefused;
    if ops != [] {
      var front, op := ops[..|ops| - 1], ops[|ops| - 1];
      OversizeOutcome(c, front);
      SlimRun(c, front);
      RunInv(c, front);
      if Enabled(Run(c, front), op) { RefusedStep(c, Run(c, front), op); }
    } else {
      NoneRefused();
    }
  }

  lemma NoneRefused()
    ensures OversizeRefused(INITIAL)
  {}
}
