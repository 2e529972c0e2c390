/** The audit receipt writer and its lane of sealed events. */
module AuditLane {
  import opened Options
  import opened Sequences

  /** An action record, by the order in which it was submitted. */
  datatype Action = Action(ticket: nat, data: string)

  /** A sealed event; its hash covers all the rest. */
  datatype Event = Event(number: nat, lamport: nat, prev: string, action: Action, hash: string)

  datatype Pointer = Pointer(number: nat, hash: string)

  /** An idempotency row: the request it answers and, when an event was sealed for it, which one. */
  datatype Bind = Bind(key: string, requestHash: string)
  datatype Bound = Bound(requestHash: string, receipt: Option<(Action, Pointer)>)

  datatype Job = Seal(action: Action, bind: Option<Bind>) | BindOnly(row: Bind)

  /** The running job waits for its commit, which may have become durable already. */
  datatype Running = Nothing | Committing(job: Job, event: Event, durable: bool)

  datatype Crypto = Crypto(genesis: string, seal: (nat, nat, string, Action) -> string)

  datatype Head = Head(number: nat, prev: string, lamport: nat)

  /** The store's lane and operations table, the writer, and the receipts it has answered. */
  datatype State = State(lane: seq<Event>, bound: map<string, Bound>, head: Head, queue: seq<Job>, running: Running,
                         submitted: nat, receipts: seq<(Action, Pointer)>)

  datatype Op =
    | SubmitAction(data: string, bind: Option<Bind>)
    | SubmitBind(row: Bind)
    | Start
    | Persist   // the running commit becomes durable
    | Return    // ... and reports success
    | Refuse    // the running commit fails, before or after it has become durable
    | Restart   // the process ends, and a fresh writer resumes from the lane

  function Initial(c: Crypto): State {
    State([], map[], Head(0, c.genesis, 0), [], Nothing, 0, [])
  }

  function Sealed(c: Crypto, h: Head, a: Action): Event {
    Event(h.number + 1, h.lamport + 1, h.prev, a, c.seal(h.number + 1, h.lamport + 1, h.prev, a))
  }

  function HeadOf(e: Event): Head { Head(e.number, e.hash, e.lamport) }

  function PointerTo(e: Event): Pointer { Pointer(e.number, e.hash) }

  /** A commit can still fail when its record is durable: the registry is brought up to date last. */
  predicate Enabled(s: State, op: Op) {
    match op
    case Start => s.running.Nothing? && s.queue != []
    case Persist => s.running.Committing? && !s.running.durable
    case Return => s.running.Committing? && s.running.durable
    case Refuse => s.running.Committing?
    case _ => true
  }

  function Persisted(s: State): State
    requires s.running.Committing?
  {
    var s1 := s.(running := s.running.(durable := true));
    match s.running.job
    case Seal(a, bind) =>
      var e := s.running.event;
      var bound := if bind.None? then s.bound
                   else s.bound[bind.value.key := Bound(bind.value.requestHash, Some((a, PointerTo(e))))];
      s1.(lane := s.lane + [e], bound := bound)
    case BindOnly(bind) => s1.(bound := s.bound[bind.key := Bound(bind.requestHash, None)])
  }

  function Returned(s: State): State
    requires s.running.Committing?
  {
    match s.running.job
    case Seal(a, _) =>
      var e := s.running.event;
      s.(running := Nothing, head := HeadOf(e), receipts := s.receipts + [(a, PointerTo(e))])
    case BindOnly(_) => s.(running := Nothing)
  }

  function LaneHead(c: Crypto, lane: seq<Event>): Head {
    if lane == [] then Head(0, c.genesis, 0) else HeadOf(lane[|lane| - 1])
  }

  function Step(c: Crypto, s: State, op: Op): State
    requires Enabled(s, op)
  {
    match op
    case SubmitAction(data, bind) =>
      s.(queue := s.queue + [Seal(Action(s.submitted, data), bind)], submitted := s.submitted + 1)
    case SubmitBind(bind) => s.(queue := s.queue + [BindOnly(bind)])
    case Start => Begun(c, s)
    case Persist => Persisted(s)
    case Return => Returned(s)
    case Refuse => s.(running := Nothing)
    case Restart => s.(head := LaneHead(c, s.lane), queue := [], running := Nothing)
  }

  /** The head of the queue is sealed at the current chain head and handed to the store. */
  function Begun(c: Crypto, s: State): State
    requires s.queue != []
  {
    var job := s.queue[0];
    var action := if job.Seal? then job.action else Action(0, "");
    s.(queue := s.queue[1..], running := Committing(job, Sealed(c, s.head, action), false))
  }

  // ---------- the writer object ----------

  class Store {
    var lane: seq<Event>
    var bound: map<string, Bound>

    constructor ()
      ensures lane == [] && bound == map[]
    {
      lane, bound := [], map[];
    }

    method Commit(event: Option<Event>, key: Option<string>, row: Bound)
      modifies this
      ensures lane == old(lane) + if event.Some? then [event.value] else []
      ensures bound == if key.Some? then old(bound)[key.value := row] else old(bound)
    {
      if event.Some? { lane := lane + [event.value]; }
      if key.Some? { bound := bound[key.value := row]; }
    }
  }

  class AuditReceiptWriter {
    const crypto: Crypto
    const store: Store
    var number: nat
    var prev: string
    var lamport: nat
    var queue: seq<Job>
    var running: Running
    ghost var submitted: nat
    ghost var receipts: seq<(Action, Pointer)>

    constructor (crypto: Crypto, store: Store)
      ensures this.crypto == crypto && this.store == store
      ensures Now() == State(store.lane, store.bound, Head(0, crypto.genesis, 0), [], Nothing, 0, [])
    {
      this.crypto, this.store := crypto, store;
      number, prev, lamport, queue, running, submitted, receipts := 0, crypto.genesis, 0, [], Nothing, 0, [];
    }

    ghost function Now(): State
      reads this, store
    {
      State(store.lane, store.bound, Head(number, prev, lamport), queue, running, submitted, receipts)
    }

    /** A fresh writer takes its head from the last record of the lane. */
    method Resume()
      requires queue == [] && running == Nothing && Now().head == Head(0, crypto.genesis, 0)
      modifies this`number, this`prev, this`lamport
      ensures Now() == old(Now()).(head := LaneHead(crypto, store.lane))
    {
      var last: Option<Event> := None;
      for i := 0 to |store.lane|
        invariant last == if i == 0 then None else Some(store.lane[i - 1])
      {
        last := Some(store.lane[i]);
      }
      if last.Some? {
        number, prev, lamport := last.value.number, last.value.hash, last.value.lamport;
      }
    }

    method CommitAction(action: Action, bind: Option<Bind>)
      requires action.ticket == submitted
      modifies this`queue, this`submitted
      ensures Now() == old(Now()).(queue := old(queue) + [Seal(action, bind)], submitted := old(submitted) + 1)
    {
      queue := queue + [Seal(action, bind)];
      submitted := submitted + 1;
    }

    method CommitBind(bind: Bind)
      modifies this`queue
      ensures Now() == old(Now()).(queue := old(queue) + [BindOnly(bind)])
    {
      queue := queue + [BindOnly(bind)];
    }

    /** Starts the next job once the one before is over. */
    method RunNext()
      requires running.Nothing? && queue != []
      modifies this`queue, this`running
      ensures Now() == Begun(crypto, old(Now()))
    {
      var job := queue[0];
      var action := if job.Seal? then job.action else Action(0, "");
      var hash := crypto.seal(number + 1, lamport + 1, prev, action);
      queue := queue[1..];
      running := Committing(job, Event(number + 1, lamport + 1, prev, action, hash), false);
    }

    method CommitDurable()
      requires running.Committing?
      modifies this`running, store
      ensures Now() == Persisted(old(Now()))
    {
      var e := running.event;
      match running.job {
        case Seal(a, bind) =>
          if bind.Some? {
            store.Commit(Some(e), Some(bind.value.key), Bound(bind.value.requestHash, Some((a, PointerTo(e)))));
          } else {
            store.Commit(Some(e), None, Bound("", None));
          }
        case BindOnly(bind) =>
          store.Commit(None, Some(bind.key), Bound(bind.requestHash, None));
      }
      running := running.(durable := true);
    }

    /** The commit reported success: the head moves, and the receipt is answered. */
    method OnCommitted() returns (receipt: Option<Pointer>)
      requires running.Committing?
      modifies this
      ensures Now() == Returned(old(Now()))
      ensures receipt == if old(running).job.Seal? then Some(PointerTo(old(running).event)) else None
    {
      receipt := None;
      if running.job.Seal? {
        var e := running.event;
        receipts := receipts + [(running.job.action, PointerTo(e))];
        number, prev, lamport := e.number, e.hash, e.lamport;
        receipt := Some(PointerTo(e));
      }
      running := Nothing;
    }

    method OnRefused()
      requires running.Committing?
      modifies this`running
      ensures Now() == old(Now()).(running := Nothing)
    {
      running := Nothing;
    }
  }

  // ---------- what every run keeps ----------

  predicate ChainedAt(c: Crypto, lane: seq<Event>, k: nat)
    requires k < |lane|
  {
    var prev := if k == 0 then c.genesis else lane[k - 1].hash;
    && lane[k].number == k + 1 && lane[k].lamport == k + 1 && lane[k].prev == prev
    && lane[k].hash == c.seal(k + 1, k + 1, prev, lane[k].action)
  }

  /** Event k has seq k and lamport k and names the hash of event k - 1. */
  ghost predicate Chained(c: Crypto, lane: seq<Event>) {
    forall k | 0 <= k < |lane| :: ChainedAt(c, lane, k)
  }

  /** A pointer leads to the event that seals the action. */
  predicate Points(lane: seq<Event>, receipt: (Action, Pointer)) {
    var (a, p) := receipt;
    1 <= p.number <= |lane| && lane[p.number - 1].action == a && lane[p.number - 1].hash == p.hash
  }

  ghost predicate ReceiptsPoint(s: State) {
    && (forall i | 0 <= i < |s.receipts| :: Points(s.lane, s.receipts[i]))
    && forall k | k in s.bound && s.bound[k].receipt.Some? :: Points(s.lane, s.bound[k].receipt.value)
  }

  /** The tickets still to be sealed, in order. */
  function Waiting(s: State): seq<Job> {
    (if s.running.Committing? && !s.running.durable then [s.running.job] else []) + s.queue
  }

  predicate Later(lane: seq<Event>, i: nat, j: nat)
    requires i < |lane| && j < |lane|
  {
    lane[i].action.ticket < lane[j].action.ticket
  }

  /** No action is sealed twice, and actions are sealed in the order of submission. */
  ghost predicate SealedInOrder(s: State) {
    && (forall i, j | 0 <= i < j < |s.lane| :: Later(s.lane, i, j))
    && (forall i | 0 <= i < |s.lane| :: Submitted(s, s.lane[i].action))
    && (forall j | 0 <= j < |Waiting(s)| :: WaitsBehind(s, j))
    && (forall i, j | 0 <= i < j < |Waiting(s)| :: WaitsInOrder(s, i, j))
  }

  predicate Submitted(s: State, a: Action) { a.ticket < s.submitted }

  predicate WaitsBehind(s: State, j: nat)
    requires j < |Waiting(s)|
  {
    var job := Waiting(s)[j];
    job.Seal? ==> job.action.ticket < s.submitted
                  && (s.lane != [] ==> s.lane[|s.lane| - 1].action.ticket < job.action.ticket)
  }

  predicate WaitsInOrder(s: State, i: nat, j: nat)
    requires i < |Waiting(s)| && j < |Waiting(s)|
  {
    var a, b := Waiting(s)[i], Waiting(s)[j];
    a.Seal? && b.Seal? ==> a.action.ticket < b.action.ticket
  }

  /** The head the writer works from. When it lags, the last record is one it was told had failed. */
  predicate HeadsAt(c: Crypto, s: State, lag: bool) {
    if lag then s.lane != [] && s.head == LaneHead(c, s.lane[..|s.lane| - 1]) else s.head == LaneHead(c, s.lane)
  }

  /** A running job is sealed at the head; once durable, its event is the lane's tail. */
  predicate HeadCurrent(c: Crypto, s: State, lag: bool) {
    if s.running.Committing? && s.running.job.Seal? then
      if s.running.durable then
        && !lag && s.lane != [] && s.lane[|s.lane| - 1] == s.running.event
        && s.running.event.action == s.running.job.action && s.head == LaneHead(c, s.lane[..|s.lane| - 1])
      else HeadsAt(c, s, lag) && s.running.event == Sealed(c, s.head, s.running.job.action)
    else HeadsAt(c, s, lag)
  }

  ghost predicate Inv(c: Crypto, s: State, lag: bool) {
    Chained(c, s.lane) && HeadCurrent(c, s, lag) && ReceiptsPoint(s)
  }

  /** What holds even when the lane forks. */
  ghost predicate OrderInv(s: State) {
    && SealedInOrder(s)
    && (s.running.Committing? && s.running.job.Seal? ==> s.running.event.action == s.running.job.action)
  }

  lemma ChainPush(c: Crypto, lane: seq<Event>, a: Action)
    requires Chained(c, lane)
    ensures Chained(c, lane + [Sealed(c, LaneHead(c, lane), a)])
  {
    var n, e := |lane|, Sealed(c, LaneHead(c, lane), a);
    forall k | 0 <= k < n + 1 ensures ChainedAt(c, lane + [e], k) {
      if k < n { assert ChainedAt(c, lane, k); } else if n > 0 { assert ChainedAt(c, lane, n - 1); }
    }
  }

  lemma PointsStays(lane: seq<Event>, e: Event, r: (Action, Pointer))
    requires Points(lane, r)
    ensures Points(lane + [e], r)
  {}

  /** The event of the first waiting job joins the lane. */
  lemma SealedPush(s: State, t: State, e: Event)
    requires SealedInOrder(s) && Waiting(s) != [] && Waiting(s)[0].Seal? && e.action == Waiting(s)[0].action
    requires t.lane == s.lane + [e] && t.submitted == s.submitted && Waiting(t) == Waiting(s)[1..]
    ensures SealedInOrder(t)
  {
    hide Waiting;
    var n := |s.lane|;
    assert WaitsBehind(s, 0);
    forall i, j | 0 <= i < j < |t.lane| ensures Later(t.lane, i, j) {
      if j < n { assert Later(s.lane, i, j); } else if i < n - 1 { assert Later(s.lane, i, n - 1); }
    }
    forall i | 0 <= i < |t.lane| ensures Submitted(t, t.lane[i].action) {
      if i < n { assert Submitted(s, s.lane[i].action); }
    }
    forall j | 0 <= j < |Waiting(t)| ensures WaitsBehind(t, j) {
      assert WaitsBehind(s, j + 1) && WaitsInOrder(s, 0, j + 1);
    }
    forall i, j | 0 <= i < j < |Waiting(t)| ensures WaitsInOrder(t, i, j) { assert WaitsInOrder(s, i + 1, j + 1); }
  }

  lemma ReceiptsStay(s: State, e: Event)
    requires ReceiptsPoint(s)
    ensures ReceiptsPoint(s.(lane := s.lane + [e]))
  {
    forall i | 0 <= i < |s.receipts| ensures Points(s.lane + [e], s.receipts[i]) {
      PointsStays(s.lane, e, s.receipts[i]);
    }
    forall k | k in s.bound && s.bound[k].receipt.Some? ensures Points(s.lane + [e], s.bound[k].receipt.value) {
      PointsStays(s.lane, e, s.bound[k].receipt.value);
    }
  }

  lemma PersistInv(c: Crypto, s: State, lag: bool)
    requires Inv(c, s, lag) && Enabled(s, Persist) && !Forks(s, lag, Persist)
    ensures Inv(c, Persisted(s), lag)
  {
    if s.running.job.Seal? {
      var e := s.running.event;
      ChainPush(c, s.lane, s.running.job.action);
      ReceiptsStay(s, e);
      Newest(c, s.lane, e);
      Unsnoc(s.lane, e);
    }
  }

  lemma PersistOrder(s: State)
    requires OrderInv(s) && Enabled(s, Persist)
    ensures OrderInv(Persisted(s))
  {
    var t := Persisted(s);
    assert Waiting(s) == [s.running.job] + s.queue && Waiting(t) == [] + s.queue == Waiting(s)[1..];
    if s.running.job.Seal? {
      SealedPush(s, t, s.running.event);
    } else {
      WaitingFewer(s, t, 1);
    }
  }

  lemma Newest(c: Crypto, lane: seq<Event>, e: Event)
    requires Chained(c, lane) && e.number == LaneHead(c, lane).number + 1
    ensures Points(lane + [e], (e.action, PointerTo(e)))
  {
    if lane != [] { assert ChainedAt(c, lane, |lane| - 1); }
  }

  lemma ReturnInv(c: Crypto, s: State, lag: bool)
    requires Inv(c, s, lag) && Enabled(s, Return)
    ensures Inv(c, Returned(s), lag)
  {
    var t := Returned(s);
    if s.running.job.Seal? {
      assert ChainedAt(c, s.lane, |s.lane| - 1);
      forall i | 0 <= i < |t.receipts| ensures Points(t.lane, t.receipts[i]) {
        if i < |s.receipts| { assert Points(s.lane, s.receipts[i]); }
      }
    }
  }

  /** Fewer jobs wait, in the same order, behind the same lane. */
  lemma WaitingSame(s: State, t: State)
    requires SealedInOrder(s) && t.lane == s.lane && t.submitted >= s.submitted && Waiting(t) == Waiting(s)
    ensures SealedInOrder(t)
  {
    assert forall i | 0 <= i < |s.lane| :: Submitted(s, s.lane[i].action) ==> Submitted(t, t.lane[i].action);
    forall j | 0 <= j < |Waiting(t)| ensures WaitsBehind(t, j) { assert WaitsBehind(s, j); }
    forall i, j | 0 <= i < j < |Waiting(t)| ensures WaitsInOrder(t, i, j) { assert WaitsInOrder(s, i, j); }
  }

  lemma WaitingFewer(s: State, t: State, k: nat)
    requires SealedInOrder(s) && t.lane == s.lane && t.submitted == s.submitted
    requires k <= |Waiting(s)| && Waiting(t) == Waiting(s)[k..]
    ensures SealedInOrder(t)
  {
    assert forall i | 0 <= i < |s.lane| :: Submitted(s, s.lane[i].action) ==> Submitted(t, t.lane[i].action);
    forall j | 0 <= j < |Waiting(t)| ensures WaitsBehind(t, j) { assert WaitsBehind(s, j + k); }
    forall i, j | 0 <= i < j < |Waiting(t)| ensures WaitsInOrder(t, i, j) { assert WaitsInOrder(s, i + k, j + k); }
  }

  lemma SubmitInv(s: State, t: State, job: Job)
    requires SealedInOrder(s) && t.lane == s.lane && Waiting(t) == Waiting(s) + [job]
    requires t.submitted == s.submitted + (if job.Seal? then 1 else 0)
    requires (job.Seal? ==> job.action.ticket == s.submitted)
    ensures SealedInOrder(t)
  {
    var n := |Waiting(s)|;
    forall i | 0 <= i < |t.lane| ensures Submitted(t, t.lane[i].action) { assert Submitted(s, s.lane[i].action); }
    forall j | 0 <= j < |Waiting(t)| ensures WaitsBehind(t, j) {
      if j < n { assert WaitsBehind(s, j); }
      else if t.lane != [] { assert Submitted(s, s.lane[|s.lane| - 1].action); }
    }
    forall i, j | 0 <= i < j < |Waiting(t)| ensures WaitsInOrder(t, i, j) {
      if j < n { assert WaitsInOrder(s, i, j); } else { assert WaitsBehind(s, i); }
    }
  }

  lemma StepOrder(c: Crypto, s: State, op: Op)
    requires OrderInv(s) && Enabled(s, op)
    ensures OrderInv(Step(c, s, op))
  {
    hide SealedInOrder;
    var t := Step(c, s, op);
    match op {
      case Persist => PersistOrder(s);
      case Return =>
        assert Waiting(t) == [] + s.queue == Waiting(s);
        WaitingSame(s, t);
      case SubmitAction(data, bind) =>
        var job := Seal(Action(s.submitted, data), bind);
        assert Waiting(t) == Waiting(s) + [job];
        SubmitInv(s, t, job);
      case SubmitBind(bind) =>
        assert Waiting(t) == Waiting(s) + [BindOnly(bind)];
        SubmitInv(s, t, BindOnly(bind));
      case Start =>
        assert Waiting(t) == s.queue == Waiting(s);
        WaitingSame(s, t);
      case Refuse =>
        assert Waiting(t) == s.queue == Waiting(s)[|Waiting(s)| - |s.queue|..];
        WaitingFewer(s, t, |Waiting(s)| - |s.queue|);
      case Restart =>
        assert Waiting(t) == Waiting(s)[|Waiting(s)|..];
        WaitingFewer(s, t, |Waiting(s)|);
    }
  }

  /** The writer learns that a record failed which is on the lane. */
  predicate RefusedLate(s: State, op: Op) {
    op == Refuse && s.running.Committing? && s.running.durable && s.running.job.Seal?
  }

  /** An event sealed at a head that lags becomes durable. */
  predicate Forks(s: State, lag: bool, op: Op) {
    lag && op == Persist && Enabled(s, op) && s.running.job.Seal?
  }

  /** The head catches up with the lane when a sealed job returns, and on a restart. */
  predicate CatchesUp(s: State, op: Op) {
    op == Restart || (op == Return && Enabled(s, op) && s.running.job.Seal?)
  }

  predicate LagAfter(s: State, lag: bool, op: Op) { !CatchesUp(s, op) && (lag || RefusedLate(s, op)) }

  lemma StepInv(c: Crypto, s: State, lag: bool, op: Op)
    requires Inv(c, s, lag) && Enabled(s, op) && !Forks(s, lag, op)
    ensures Inv(c, Step(c, s, op), LagAfter(s, lag, op))
  {
    match op {
      case Persist => PersistInv(c, s, lag);
      case Return => ReturnInv(c, s, lag);
      case _ =>
    }
  }

  /** The event that joins repeats the number of the one before it. */
  lemma ForkBreaks(c: Crypto, s: State, lag: bool)
    requires Inv(c, s, lag) && Forks(s, lag, Persist)
    ensures var lane := Persisted(s).lane; lane[|s.lane|].number == lane[|s.lane| - 1].number && !Chained(c, lane)
  {
    var n, t := |s.lane|, Persisted(s);
    assert ChainedAt(c, s.lane, n - 1);
    if n > 1 { assert ChainedAt(c, s.lane, n - 2); }
    assert t.lane[n].number == n;
    assert !ChainedAt(c, t.lane, n);
  }

  /** Something that cannot happen now does not. */
  function Next(c: Crypto, s: State, op: Op): State { if Enabled(s, op) then Step(c, s, op) else s }

  function Run(c: Crypto, s: State, ops: seq<Op>): State {
    if ops == [] then s else Next(c, Run(c, s, ops[..|ops| - 1]), ops[|ops| - 1])
  }

  /** A commit was refused although its event is on the lane, and the head has not caught up since. */
  predicate Lagging(c: Crypto, ops: seq<Op>) {
    if ops == [] then false
    else LagAfter(Run(c, Initial(c), ops[..|ops| - 1]), Lagging(c, ops[..|ops| - 1]), ops[|ops| - 1])
  }

  /** At some time an event became durable while the head lagged. */
  predicate Forked(c: Crypto, ops: seq<Op>) {
    if ops == [] then false
    else
      || Forked(c, ops[..|ops| - 1])
      || Forks(Run(c, Initial(c), ops[..|ops| - 1]), Lagging(c, ops[..|ops| - 1]), ops[|ops| - 1])
  }

  /** Over every interleaving of submissions, commits that succeed or fail, early or late, and restarts at
      any point: until the lane forks it is one gap-free chain, and every receipt and every idempotency
      row points at the event of its action. */
  lemma {:induction false} RunInv(c: Crypto, ops: seq<Op>)
    requires !Forked(c, ops)
    ensures Inv(c, Run(c, Initial(c), ops), Lagging(c, ops))
  {
    if ops != [] {
      var front, op := ops[..|ops| - 1], ops[|ops| - 1];
      RunInv(c, front);
      var s := Run(c, Initial(c), front);
      if Enabled(s, op) { StepInv(c, s, Lagging(c, front), op); }
    }
  }

  /** Over every run, forked or not: no action is sealed twice, and actions are sealed in the order of
      submission. */
  lemma {:induction false} RunOrder(c: Crypto, ops: seq<Op>)
    ensures OrderInv(Run(c, Initial(c), ops))
  {
    if ops != [] {
      RunOrder(c, ops[..|ops| - 1]);
      var s := Run(c, Initial(c), ops[..|ops| - 1]);
      if Enabled(s, ops[|ops| - 1]) { StepOrder(c, s, ops[|ops| - 1]); }
    }
  }

  lemma ChainedPrefix(c: Crypto, lane: seq<Event>, more: seq<Event>)
    requires lane <= more && Chained(c, more)
    ensures Chained(c, lane)
  {
    forall k | 0 <= k < |lane| ensures ChainedAt(c, lane, k) { assert ChainedAt(c, more, k); }
  }

  /** Over every run: the lane is one chain if and only if after a commit that was refused late no event became
      durable before the next restart. */
  lemma {:induction false} ChainIff(c: Crypto, ops: seq<Op>)
    ensures Chained(c, Run(c, Initial(c), ops).lane) <==> !Forked(c, ops)
  {
    if !Forked(c, ops) {
      RunInv(c, ops);
    } else {
      var front, op := ops[..|ops| - 1], ops[|ops| - 1];
      var s := Run(c, Initial(c), front);
      ChainIff(c, front);
      if Forked(c, front) {
        if Chained(c, Next(c, s, op).lane) { ChainedPrefix(c, s.lane, Next(c, s, op).lane); }
      } else {
        RunInv(c, front);
        ForkBreaks(c, s, Lagging(c, front));
      }
    }
  }

  /** The head and the lane's tail, forked or not. */
  predicate HeadInv(c: Crypto, s: State, lag: bool) {
    var sealing := s.running.Committing? && s.running.job.Seal?;
    && (sealing ==> s.running.event == Sealed(c, s.head, s.running.job.action))
    && if sealing && s.running.durable then s.lane != [] && s.lane[|s.lane| - 1] == s.running.event
       else if lag then LaneHead(c, s.lane).number == s.head.number + 1
       else s.head == LaneHead(c, s.lane)
  }

  lemma {:induction false} RunHead(c: Crypto, ops: seq<Op>)
    ensures HeadInv(c, Run(c, Initial(c), ops), Lagging(c, ops))
  {
    if ops != [] {
      RunHead(c, ops[..|ops| - 1]);
    }
  }

  /** Over every run: whenever no job is running, the head in memory is the tail of the lane if and only if
      it does not lag, and on a lane that has not forked its numbers then count the events. */
  lemma HeadIsTail(c: Crypto, ops: seq<Op>)
    requires Run(c, Initial(c), ops).running.Nothing?
    ensures var s := Run(c, Initial(c), ops);
            && (s.head == LaneHead(c, s.lane) <==> !Lagging(c, ops))
            && (!Lagging(c, ops) && !Forked(c, ops) ==> s.head.number == s.head.lamport == |s.lane|)
  {
    RunHead(c, ops);
    if !Forked(c, ops) {
      RunInv(c, ops);
      var s := Run(c, Initial(c), ops);
      if s.lane != [] { assert ChainedAt(c, s.lane, |s.lane| - 1); }
    }
  }

  /** What is on the lane stays there, whatever fails afterwards. */
  lemma {:induction false} LaneGrows(c: Crypto, s: State, ops: seq<Op>)
    ensures s.lane <= Run(c, s, ops).lane
  {
    if ops != [] {
      LaneGrows(c, s, ops[..|ops| - 1]);
    }
  }

  lemma RunSnoc(c: Crypto, s: State, ops: seq<Op>, op: Op)
    ensures Run(c, s, ops + [op]) == Next(c, Run(c, s, ops), op)
  {
    Unsnoc(ops, op);
  }

  // ---------- rows ----------

  /** The row of a job that has become durable: its request hash, and the event sealed for it. */
  predicate RowOf(s: State, job: Job, e: Event) {
    match job
    case Seal(a, None) => true
    case Seal(a, Some(b)) =>
      b.key in s.bound && s.bound[b.key] == Bound(b.requestHash, Some((a, Pointer(e.number, e.hash))))
    case BindOnly(b) => b.key in s.bound && s.bound[b.key] == Bound(b.requestHash, None)
  }

  predicate DurableHasRow(s: State) {
    s.running.Committing? && s.running.durable ==> RowOf(s, s.running.job, s.running.event)
  }

  lemma {:induction false} RunHasRow(c: Crypto, ops: seq<Op>)
    ensures DurableHasRow(Run(c, Initial(c), ops))
  {
    if ops != [] { RunHasRow(c, ops[..|ops| - 1]); }
  }

  /** Over every run: when a commit reports success, the row of its job is there under its key with its request hash
      and, if an event was sealed, with the pointer to it, which is also the receipt. */
  lemma ReportedIsBound(c: Crypto, ops: seq<Op>)
    requires Enabled(Run(c, Initial(c), ops), Return)
    ensures var s, t := Run(c, Initial(c), ops), Run(c, Initial(c), ops + [Return]);
            && RowOf(t, s.running.job, s.running.event)
            && t.receipts == s.receipts + (if s.running.job.Seal?
                 then [(s.running.job.action, Pointer(s.running.event.number, s.running.event.hash))] else [])
  {
    hide Run;
    RunHasRow(c, ops);
    RunSnoc(c, Initial(c), ops, Return);
    AddNil(Run(c, Initial(c), ops).receipts);
  }

  predicate Binds(job: Job, key: string) {
    match job case Seal(_, bind) => bind.Some? && bind.value.key == key case BindOnly(b) => b.key == key
  }

  /** A row stays as it is until another job with its key becomes durable. */
  lemma RowStays(c: Crypto, s: State, op: Op, key: string)
    requires key in s.bound && !(op == Persist && s.running.Committing? && Binds(s.running.job, key))
    ensures var t := Next(c, s, op); key in t.bound && t.bound[key] == s.bound[key]
  {}

  // ---------- what is sealed is what was submitted ----------

  /** The submitted actions with their bindings, by ticket. */
  function Submissions(ops: seq<Op>): seq<(string, Option<Bind>)> {
    if ops == [] then []
    else
      Submissions(ops[..|ops| - 1])
      + match ops[|ops| - 1] case SubmitAction(data, bind) => [(data, bind)] case _ => []
  }

  predicate IsSubmission(all: seq<(string, Option<Bind>)>, a: Action, bind: Option<Bind>) {
    a.ticket < |all| && all[a.ticket] == (a.data, bind)
  }

  predicate JobSubmitted(all: seq<(string, Option<Bind>)>, job: Job) {
    job.Seal? ==> IsSubmission(all, job.action, job.bind)
  }

  predicate EventSubmitted(all: seq<(string, Option<Bind>)>, e: Event) {
    e.action.ticket < |all| && all[e.action.ticket].0 == e.action.data
  }

  ghost predicate AllSubmitted(all: seq<(string, Option<Bind>)>, s: State) {
    && s.submitted == |all|
    && (forall e | e in s.lane :: EventSubmitted(all, e))
    && (forall j | j in s.queue :: JobSubmitted(all, j))
    && (s.running.Committing? ==> JobSubmitted(all, s.running.job))
  }

  lemma SubmittedMore(all: seq<(string, Option<Bind>)>, more: seq<(string, Option<Bind>)>, s: State)
    requires AllSubmitted(all, s)
    ensures AllSubmitted(all + more, s.(submitted := |all + more|))
  {
    forall e | e in s.lane ensures EventSubmitted(all + more, e) { assert EventSubmitted(all, e); }
    forall j | j in s.queue ensures JobSubmitted(all + more, j) { assert JobSubmitted(all, j); }
    if s.running.Committing? { assert JobSubmitted(all, s.running.job); }
  }

  lemma SubmittedStep(c: Crypto, s: State, op: Op, all: seq<(string, Option<Bind>)>)
    requires AllSubmitted(all, s) && OrderInv(s) && Enabled(s, op)
    ensures var more := match op case SubmitAction(data, bind) => [(data, bind)] case _ => [];
            AllSubmitted(all + more, Step(c, s, op))
  {
    hide SealedInOrder;
    match op {
      case SubmitAction(data, bind) => SubmittedMore(all, [(data, bind)], s);
      case _ => AddNil(all);
    }
  }

  /** Over every run: every event on the lane holds the data of the submission with its ticket, and every job waits
      with the data and the binding it was submitted with. */
  lemma {:induction false} SealedAsSubmitted(c: Crypto, ops: seq<Op>)
    ensures AllSubmitted(Submissions(ops), Run(c, Initial(c), ops))
  {
    if ops != [] {
      hide AllSubmitted, Step;
      var front, op := ops[..|ops| - 1], ops[|ops| - 1];
      var s := Run(c, Initial(c), front);
      SealedAsSubmitted(c, front);
      RunOrder(c, front);
      if Enabled(s, op) {
        SubmittedStep(c, s, op, Submissions(front));
      } else {
        AddNil(Submissions(front));
      }
    } else {
      NothingSubmitted(c);
    }
  }

  lemma NothingSubmitted(c: Crypto)
    ensures AllSubmitted([], Initial(c))
  {}

  /** It happens: the first commit is durable and refused, and the second event repeats its number. */
  lemma LateFailureForks(c: Crypto, d: string, e: string)
    ensures var first := [SubmitAction(d, None), SubmitAction(e, None), Start, Persist, Refuse];
            var lane := Run(c, Initial(c), first + [Start] + [Persist]).lane;
            |lane| == 2 && lane[0].number == lane[1].number == 1 && !Chained(c, lane)
  {
    hide Run, Next;
    var first := [SubmitAction(d, None), SubmitAction(e, None), Start, Persist, Refuse];
    var s := RefusedFirst(c, d, e);
    RunSnoc(c, Initial(c), first, Start);
    RunSnoc(c, Initial(c), first + [Start], Persist);
    var t := SealedAgain(c, s);
    assert !ChainedAt(c, t.lane, 1);
  }

  /** After the refusal: one event on the lane, and the head where it was. */
  lemma RefusedFirst(c: Crypto, d: string, e: string) returns (s: State)
    ensures s == Run(c, Initial(c), [SubmitAction(d, None), SubmitAction(e, None), Start, Persist, Refuse])
    ensures s.running.Nothing? && s.head == Initial(c).head && |s.queue| == 1 && s.queue[0].Seal?
    ensures s.queue[0].bind.None? && |s.lane| == 1 && s.lane[0].number == 1
  {
    hide Run;
    var a, b := SubmitAction(d, None), SubmitAction(e, None);
    assert [a] == [] + [a] && [a, b] == [a] + [b] && [a, b, Start] == [a, b] + [Start];
    assert [a, b, Start, Persist] == [a, b, Start] + [Persist];
    assert [a, b, Start, Persist, Refuse] == [a, b, Start, Persist] + [Refuse];
    RunNothing(c, Initial(c));
    RunSnoc(c, Initial(c), [], a);
    RunSnoc(c, Initial(c), [a], b);
    RunSnoc(c, Initial(c), [a, b], Start);
    RunSnoc(c, Initial(c), [a, b, Start], Persist);
    RunSnoc(c, Initial(c), [a, b, Start, Persist], Refuse);
    s := Run(c, Initial(c), [a, b, Start, Persist, Refuse]);
  }

  lemma RunNothing(c: Crypto, s: State)
    ensures Run(c, s, []) == s
  {}

  lemma SealedAgain(c: Crypto, s: State) returns (t: State)
    requires s.running.Nothing? && s.queue != [] && s.queue[0].Seal?
    ensures t == Next(c, Next(c, s, Start), Persist)
    ensures |t.lane| == |s.lane| + 1 && s.lane <= t.lane && t.lane[|s.lane|].number == s.head.number + 1
  {
    t := Next(c, Next(c, s, Start), Persist);
  }
}
