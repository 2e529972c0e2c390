/** Why an approval is granted, and why a side effect is emitted. */
module ApprovalCauses {
  import opened ApprovalAdapter
  import opened ApprovalBuses
  import opened Options
  import opened Sequences

  // ---------- why an approval is granted ----------

  /** The last start of a run. */
  function LastStart(ops: seq<Op>): (r: Option<Op>)
    ensures r.Some? ==> r.value.Start?
  {
    if ops == [] then None
    else if ops[|ops| - 1].Start? then Some(ops[|ops| - 1])
    else LastStart(ops[..|ops| - 1])
  }

  /** Started and not stopped since. */
  predicate IsUp(ops: seq<Op>) {
    ops != [] && (ops[|ops| - 1].Start? || (!ops[|ops| - 1].Stop? && IsUp(ops[..|ops| - 1])))
  }

  lemma StepCurrent(s: State, op: Op)
    requires Enabled(s, op)
    ensures var t := Step(s, op);
            && (op.Start? ==> t.started && (t.run, t.auto, t.fixtures) == (op.run, op.auto, op.fixtures))
            && (op.Stop? ==> !t.started)
            && (!op.Start? ==> (t.run, t.auto, t.fixtures) == (s.run, s.auto, s.fixtures))
            && (!op.Start? && !op.Stop? ==> t.started == s.started)
  {
    hide Chosen, NoTimers;
  }

  lemma {:induction false} RunCurrent(ops: seq<Op>)
    ensures var s, st := Run(ops), LastStart(ops);
            && s.started == IsUp(ops) && (s.started ==> st.Some?)
            && (st.Some? ==> (s.run, s.auto, s.fixtures) == (st.value.run, st.value.auto, st.value.fixtures))
  {
    hide Step;
    if ops != [] {
      var front, op := ops[..|ops| - 1], ops[|ops| - 1];
      RunCurrent(front);
      if Enabled(Run(front), op) { StepCurrent(Run(front), op); }
    } else {
      RunNothing();
    }
  }

  /** A report that the request of an approval is approved. */
  predicate Reports(r: Option<Request>, e: Emission)
    requires e.Approval?
  {
    r.Some? && r.value.status == "approved" && r.value.key == e.key && r.value.id == e.request
  }

  /** What may grant this approval on an adapter started with `auto` and `fixtures`. */
  ghost predicate Grants(op: Op, auto: bool, fixtures: seq<Row>, e: Emission)
    requires e.Approval?
  {
    match e.kind
    case ByRequest =>
      || (op.Webhook? && op.signed && Reports(op.payload, e))
      || (op.Fetched? && Reports(op.reply, e))
      || (op.Created? && auto && op.reply.Some? && op.reply.value.key == e.key && op.reply.value.id == e.request)
    case ByFixture =>
      op.BusEvent? && exists i | 0 <= i < |fixtures| ::
        fixtures[i].approved && fixtures[i].key == e.key && fixtures[i].id == e.request
    case Synthetic =>
      auto && "req_auto_" <= e.request && ((op.Created? && op.reply.None?) || (op.Emitted? && !op.ok))
  }

  /** What one step adds to the emissions and the marks. */
  lemma StepGrants(s: State, op: Op)
    requires Enabled(s, op)
    ensures var t, n := Step(s, op), |s.emissions|;
            && s.emissions <= t.emissions && |t.emissions| <= n + 1
            && (|t.emissions| > n && t.emissions[n].Approval? ==>
                  && s.started && Grants(op, s.auto, s.fixtures, t.emissions[n])
                  && (op.BusEvent? ==> t.emissions[n].kind.ByFixture?))
            && (op.Start? ==> t.resolved == {} && t.since == n)
            && (!op.Start? ==> t.since == s.since && forall k | k in t.resolved && k !in s.resolved ::
                  && |t.emissions| > n && t.emissions[n].Approval?
                  && (t.emissions[n].key == k || (op.BusEvent? && k == s.run + "." + op.event)))
  {
    hide NoTimers;
    match op {
      case BusEvent(event) => EventGrants(s, event);
      case _ =>
    }
  }

  lemma EventGrants(s: State, event: string)
    ensures var t, n, key := CreateFromEvent(s, event), |s.emissions|, s.run + "." + event;
            && s.emissions <= t.emissions && |t.emissions| <= n + 1 && t.since == s.since
            && (|t.emissions| > n ==>
                  s.started && t.emissions[n].Approval? && t.emissions[n].kind.ByFixture?
                  && Grants(BusEvent(event), s.auto, s.fixtures, t.emissions[n]))
            && forall k | k in t.resolved && k !in s.resolved ::
                 |t.emissions| > n && (t.emissions[n].key == k || k == key)
  {
    var s1 := s.(created := s.created + {s.run + "." + event});
    var i := Chosen(s1, s.run + "." + event);
    hide Chosen, FirstRow;
  }

  /** Over every run: every approval is granted on a started adapter, by a signed webhook or a reply that reports
      its request approved, by a created request or a failure under automatic approval, or by an approved row of
      the fixtures of that start. */
  lemma {:induction false} ApprovalCaused(ops: seq<Op>, n: nat)
    requires n < |Run(ops).emissions| && Run(ops).emissions[n].Approval?
    ensures var k := StepOf(ops, n);
            var st := LastStart(ops[..k]);
            IsUp(ops[..k]) && st.Some? && Grants(ops[k], st.value.auto, st.value.fixtures, Run(ops).emissions[n])
  {
    hide Step, Grants;
    var front, op, k := ops[..|ops| - 1], ops[|ops| - 1], StepOf(ops, n);
    if Enabled(Run(front), op) { StepGrants(Run(front), op); }
    if n < |Run(front).emissions| {
      ApprovalCaused(front, n);
      assert front[..k] == ops[..k];
    } else {
      RunCurrent(front);
    }
  }

  /** A key is marked only by an approval since the last start: its own, or that of a fixture row for the event
      whose key it is. */
  ghost predicate MarkedBy(ops: seq<Op>, key: string, n: nat) {
    && Run(ops).since <= n < |Run(ops).emissions| && Run(ops).emissions[n].Approval?
    && (Run(ops).emissions[n].key == key
        || (ops[StepOf(ops, n)].BusEvent? && Run(ops).run + "." + ops[StepOf(ops, n)].event == key))
  }

  lemma {:induction false} MarkHasCause(ops: seq<Op>, key: string) returns (n: nat)
    requires key in Run(ops).resolved
    ensures MarkedBy(ops, key, n)
  {
    hide Step, Grants;
    var front, op := ops[..|ops| - 1], ops[|ops| - 1];
    var s := Run(front);
    if Enabled(s, op) {
      StepGrants(s, op);
      StepCurrent(s, op);
    }
    if key in s.resolved && Run(ops).since == s.since && !op.Start? {
      n := MarkHasCause(front, key);
      assert StepOf(ops, n) == StepOf(front, n);
    } else {
      n := |s.emissions|;
      SinceWithin(front);
    }
  }

  lemma SinceWithin(ops: seq<Op>)
    ensures Run(ops).since <= |Run(ops).emissions|
  {
    RunInv(ops);
  }

  /** Over every run: a request reported approved, or created under automatic approval, is granted at once on a
      started adapter unless its key is marked. */
  lemma RequestGranted(ops: seq<Op>, op: Op, r: Request)
    requires IsUp(ops) && Enabled(Run(ops), op) && r.key !in Run(ops).resolved
    requires || (op == Webhook(true, Some(r)) && r.status == "approved")
             || (op.Fetched? && op.reply == Some(r) && r.status == "approved")
             || (op.Created? && op.reply == Some(r) && LastStart(ops).Some? && LastStart(ops).value.auto)
    ensures var s, t := Run(ops), Run(ops + [op]);
            && t.emissions == s.emissions + [Approval(s.bus, r.key, r.id, ByRequest)]
            && t.tasks != [] && var u := t.tasks[|t.tasks| - 1];
               && u.Emitting? && u.approval == |s.emissions| && u.bus.None?
               && u.todo == (if r.receipt then [ReceiptEffect] else [])
                            + if r.compensation then [CompensationEffect] else []
  {
    hide Run;
    RunPush(ops, op);
    RunCurrent(ops);
  }

  /** While a request is open its poller goes on: a creation without automatic approval starts it; after a reply that
      fails or says pending or escalated, and only then, a timer waits; and when that fires the request is asked for
      again unless the adapter is down, the key is marked or the time is up. An approved one is granted, unless it
      cannot be, and any other is dropped. */
  lemma PollingGoesOnIff(s: State, op: Op)
    requires Enabled(s, op) && (op.Fetched? || op.Tick? || (op.Created? && op.reply.Some? && !s.auto))
    ensures var u, t, left := s.tasks[op.i], Step(s, op), Without(s.tasks, op.i);
            match op
            case Fetched(_, reply) =>
              if reply.None? || reply.value.status in {"pending", "escalated"}
              then t == s.(tasks := left + [Timer(u.request, u.key)])
              else if reply.value.status == "approved" && s.started && reply.value.key !in s.resolved
              then |t.emissions| == |s.emissions| + 1 && t.resolved == s.resolved + {reply.value.key}
              else t == s.(tasks := left)
            case Created(_, reply, late) =>
              t == s.(tasks := left + if s.started && u.key !in s.resolved && !late
                                      then [Polling(reply.value.id, u.key)] else [])
            case Tick(_, late) =>
              t == s.(tasks := left + if s.started && u.key !in s.resolved && !late
                                      then [Polling(u.request, u.key)] else [])
  {
    AddNil(Without(s.tasks, op.i));
    assert "pending"[0] != "approved"[0] && "escalated"[0] != "approved"[0];
  }

  /** Likewise a creation that fails, or an approval whose emission fails, under automatic approval. */
  lemma SyntheticGranted(ops: seq<Op>, op: Op, event: string, key: string)
    requires IsUp(ops) && Enabled(Run(ops), op) && key !in Run(ops).resolved
    requires LastStart(ops).Some? && LastStart(ops).value.auto
    requires || (op.Created? && op.reply.None? && Run(ops).tasks[op.i] == Creating(event, key))
             || (op.Emitted? && !op.ok && Run(ops).tasks[op.i].origin == Creator(event, key))
    ensures Run(ops + [op]).emissions
         == Run(ops).emissions + [Approval(Run(ops).bus, key, "req_auto_" + event, Synthetic)]
  {
    hide Run;
    RunPush(ops, op);
    RunCurrent(ops);
  }

  /** And an event with an approved row left: the row of its key if there is one, unless a mark is in the way. An
      event without fixtures asks for a request. */
  lemma EventGranted(ops: seq<Op>, event: string)
    requires IsUp(ops) && LastStart(ops).Some?
    requires LastStart(ops).value.run + "." + event !in Run(ops).created
    ensures var s, t := Run(ops), Run(ops + [BusEvent(event)]);
            var key, rows := LastStart(ops).value.run + "." + event, LastStart(ops).value.fixtures;
            && (rows == [] ==> t.tasks == s.tasks + [Creating(event, key)] && t.emissions == s.emissions)
            && ((exists i | 0 <= i < |rows| :: i !in s.used && rows[i].approved) ==>
                  exists i | 0 <= i < |rows| && i !in s.used && rows[i].approved ::
                    && t.used == s.used + {i}
                    && ((exists j | 0 <= j < |rows| ::
                           j !in s.used && rows[j].approved && rows[j].key == key) ==> rows[i].key == key)
                    && (key !in s.resolved && rows[i].key !in s.resolved ==>
                          t.emissions == s.emissions + [Approval(s.bus, rows[i].key, rows[i].id, ByFixture)]))
  {
    hide Run, FirstRow;
    RunPush(ops, BusEvent(event));
    RunCurrent(ops);
    var s, key := Run(ops), LastStart(ops).value.run + "." + event;
    var s1 := s.(created := s.created + {key});
    var c := Chosen(s1, key);
    if i :| 0 <= i < |s.fixtures| && i !in s.used && s.fixtures[i].approved { assert Usable(s1, None, i); }
    if j :| 0 <= j < |s.fixtures| && j !in s.used && s.fixtures[j].approved && s.fixtures[j].key == key {
      assert Usable(s1, Some(key), j);
    }
    hide Chosen;
  }

  // ---------- what is forgotten at a start ----------

  /** Op k is an event taken by a started adapter, which has not been started again since; `key` is its key. */
  ghost predicate SeenAt(ops: seq<Op>, key: string, k: nat) {
    && k < |ops| && ops[k].BusEvent? && IsUp(ops[..k])
    && LastStart(ops[..k]).Some? && key == LastStart(ops[..k]).value.run + "." + ops[k].event
    && forall j | k < j < |ops| :: !ops[j].Start?
  }

  /** Op k took fixture row i, and the adapter has not been started since. */
  ghost predicate TakenAt(ops: seq<Op>, i: nat, k: nat) {
    && k < |ops| && ops[k].BusEvent? && i !in Run(ops[..k]).used && i in Run(ops[..k + 1]).used
    && forall j | k < j < |ops| :: !ops[j].Start?
  }

  lemma StepMarks(s: State, op: Op)
    requires Enabled(s, op)
    ensures var t := Step(s, op);
            && (op.Start? ==> t.created == {} && t.used == {})
            && (op.BusEvent? ==>
                  && t.created == (if s.started then s.created + {s.run + "." + op.event} else s.created)
                  && s.used <= t.used)
            && (!op.Start? && !op.BusEvent? ==> t.created == s.created && t.used == s.used)
  {
    hide Chosen, NoTimers;
  }

  lemma SeenLater(ops: seq<Op>, op: Op, key: string, k: nat)
    requires k < |ops| && !op.Start?
    ensures SeenAt(ops + [op], key, k) <==> SeenAt(ops, key, k)
  {
    var all := ops + [op];
    assert all[..k] == ops[..k] && all[k] == ops[k];
    if SeenAt(all, key, k) { assert forall j | k < j < |ops| :: ops[j] == all[j]; }
  }

  /** Over every run: exactly the events taken since the last start are not acted on again. */
  lemma {:induction false} CreatedIff(ops: seq<Op>, key: string)
    ensures key in Run(ops).created <==> exists k: nat :: SeenAt(ops, key, k)
  {
    if ops != [] {
      hide Step, SeenAt, IsUp;
      var n := |ops| - 1;
      var front, op := ops[..n], ops[n];
      CreatedIff(front, key);
      RunCurrent(front);
      Snoc(ops);
      if Enabled(Run(front), op) { StepMarks(Run(front), op); }
      LastSeen(front, op, key);
      if !op.Start? {
        forall k: nat | k < n ensures SeenAt(ops, key, k) <==> SeenAt(front, key, k) {
          SeenLater(front, op, key, k);
        }
      }
      if k: nat :| SeenAt(front, key, k) { SeenWithin(front, key, k); }
      if k: nat :| SeenAt(ops, key, k) { SeenWithin(ops, key, k); }
    }
  }

  lemma SeenWithin(ops: seq<Op>, key: string, k: nat)
    requires SeenAt(ops, key, k)
    ensures k < |ops|
  {}

  lemma LastSeen(ops: seq<Op>, op: Op, key: string)
    ensures SeenAt(ops + [op], key, |ops|) <==>
              && op.BusEvent? && IsUp(ops) && LastStart(ops).Some?
              && key == LastStart(ops).value.run + "." + op.event
    ensures op.Start? ==> forall k: nat :: !SeenAt(ops + [op], key, k)
  {
    assert (ops + [op])[..|ops|] == ops && (ops + [op])[|ops|] == op;
  }

  /** Over every run: a fixture row is used up only by an event since the last start. */
  lemma {:induction false} UsedHasCause(ops: seq<Op>, i: nat) returns (k: nat)
    requires i in Run(ops).used
    ensures TakenAt(ops, i, k)
  {
    hide Step;
    var n := |ops| - 1;
    var front, op := ops[..n], ops[n];
    assert ops[..n + 1] == ops;
    if Enabled(Run(front), op) { StepMarks(Run(front), op); }
    if i in Run(front).used {
      k := UsedHasCause(front, i);
      assert front[..k] == ops[..k] && front[..k + 1] == ops[..k + 1];
    } else {
      k := n;
    }
  }

  // ---------- why a side effect is emitted ----------

  predicate Carries(r: Request, x: Effect) { if x.ReceiptEffect? then r.receipt else r.compensation }

  predicate RowCarries(row: Row, x: Effect) { if x.ReceiptEffect? then row.receipt else row.compensation }

  /** The request or the row behind an approval carries this side effect. */
  ghost predicate Wants(op: Op, fixtures: seq<Row>, e: Emission, x: Effect)
    requires e.Approval?
  {
    match e.kind
    case ByRequest =>
      || (op.Webhook? && op.payload.Some? && Carries(op.payload.value, x))
      || (op.Fetched? && op.reply.Some? && Carries(op.reply.value, x))
      || (op.Created? && op.reply.Some? && Carries(op.reply.value, x))
    case ByFixture =>
      exists i | 0 <= i < |fixtures| ::
        fixtures[i].key == e.key && fixtures[i].id == e.request && RowCarries(fixtures[i], x)
    case Synthetic => false
  }

  function EffectOf(e: Emission): Effect
    requires !e.Approval?
  {
    if e.Receipt? then ReceiptEffect else CompensationEffect
  }

  /** A closure left of another, with no more to do. */
  predicate LeftOf(v: Task, u: Task) {
    v.Emitting? && u.Emitting? && u.approval == v.approval && forall x | x in u.todo :: x in v.todo
  }

  /** Everything a closure has still to do is wanted. */
  ghost predicate TaskWanted(ops: seq<Op>, u: Task) {
    u.Emitting? ==>
      && u.approval < |Run(ops).emissions| && Run(ops).emissions[u.approval].Approval?
      && forall x | x in u.todo :: WantedAt(ops, u.approval, x)
  }

  /** Side effect x of approval a is carried by what granted it. */
  ghost predicate WantedAt(ops: seq<Op>, a: nat, x: Effect)
    requires a < |Run(ops).emissions| && Run(ops).emissions[a].Approval?
  {
    var k := StepOf(ops, a);
    var st := LastStart(ops[..k]);
    st.Some? && Wants(ops[k], st.value.fixtures, Run(ops).emissions[a], x)
  }

  /** Where the closures and the side effects of one step come from. */
  ghost predicate FromStep(s: State, op: Op, t: State, u: Task) {
    || !u.Emitting?
    || (exists v :: v in s.tasks && LeftOf(v, u))
    || (|t.emissions| > |s.emissions| && u.approval == |s.emissions| && t.emissions[u.approval].Approval?
        && forall x | x in u.todo :: Wants(op, s.fixtures, t.emissions[u.approval], x))
  }

  ghost predicate EffectFrom(s: State, e: Emission)
    requires !e.Approval?
  {
    exists v :: v in s.tasks && v.Emitting? && v.approval == e.approval && EffectOf(e) in v.todo
  }

  ghost predicate Steps(s: State, op: Op, t: State) {
    && (forall u | u in t.tasks :: FromStep(s, op, t, u))
    && (|t.emissions| > |s.emissions| && !t.emissions[|s.emissions|].Approval? ==>
          EffectFrom(s, t.emissions[|s.emissions|]))
  }

  lemma {:induction false} NoTimersIn(tasks: seq<Task>)
    ensures forall u | u in NoTimers(tasks) :: u in tasks
  {
    if tasks != [] { NoTimersIn(tasks[..|tasks| - 1]); }
  }

  lemma Kept(s: State, op: Op, t: State, u: Task)
    requires u in s.tasks
    ensures FromStep(s, op, t, u)
  {
    assert u.Emitting? ==> LeftOf(u, u);
  }

  lemma WithoutIn(tasks: seq<Task>, i: nat)
    requires i < |tasks|
    ensures forall u | u in Without(tasks, i) :: u in tasks
  {}

  /** A grant, whose closure has only to do what is wanted. */
  lemma GrantSteps(s: State, op: Op, t: State, tasks: seq<Task>, u: Task)
    requires (forall v | v in tasks :: v in s.tasks) && t.tasks == tasks + [u]
    requires |t.emissions| == |s.emissions| + 1 && t.emissions[|s.emissions|].Approval?
    requires u.Emitting? && u.approval == |s.emissions|
    requires forall x | x in u.todo :: Wants(op, s.fixtures, t.emissions[|s.emissions|], x)
    ensures Steps(s, op, t)
  {
    forall v | v in t.tasks ensures FromStep(s, op, t, v) {
      if v in tasks { Kept(s, op, t, v); }
    }
  }

  /** At most one closure more, that awaits no emission. */
  lemma QuietSteps(s: State, op: Op, t: State, tasks: seq<Task>, more: seq<Task>)
    requires (forall v | v in tasks :: v in s.tasks) && t.tasks == tasks + more && t.emissions == s.emissions
    requires forall v | v in more :: !v.Emitting?
    ensures Steps(s, op, t)
  {
    forall v | v in t.tasks ensures FromStep(s, op, t, v) {
      if v in tasks { Kept(s, op, t, v); }
    }
  }

  lemma AfterEmissionSteps(s: State, i: nat, ok: bool)
    requires i < |s.tasks| && s.tasks[i].Emitting?
    ensures Steps(s, Emitted(i, ok), Step(s, Emitted(i, ok)))
  {
    var op, v, tasks := Emitted(i, ok), s.tasks[i], Without(s.tasks, i);
    var t := Step(s, op);
    WithoutIn(s.tasks, i);
    AddNil(tasks);
    hide Steps, Without;
    if !ok || NoBus(s.(tasks := tasks), v) {
      match v.origin {
        case Elsewhere => QuietSteps(s, op, t, tasks, []);
        case Poller(request, key) => QuietSteps(s, op, t, tasks, [Timer(request, key)]);
        case Creator(event, key) =>
          if t.emissions == s.emissions {
            QuietSteps(s, op, t, tasks, []);
          } else {
            GrantSteps(s, op, t, tasks, t.tasks[|tasks|]);
          }
      }
    } else if v.todo == [] {
      QuietSteps(s, op, t, tasks, []);
    } else {
      EffectSteps(s, op, t, tasks, v, t.tasks[|tasks|]);
    }
  }

  lemma EffectSteps(s: State, op: Op, t: State, tasks: seq<Task>, v: Task, u: Task)
    requires (forall w | w in tasks :: w in s.tasks) && t.tasks == tasks + [u]
    requires |t.emissions| == |s.emissions| + 1 && !t.emissions[|s.emissions|].Approval?
    requires v in s.tasks && LeftOf(v, u)
    requires var e := t.emissions[|s.emissions|]; e.approval == v.approval && EffectOf(e) in v.todo
    ensures Steps(s, op, t)
  {
    forall w | w in t.tasks ensures FromStep(s, op, t, w) {
      if w in tasks { Kept(s, op, t, w); }
    }
  }

  lemma EventSteps(s: State, event: string)
    ensures Steps(s, BusEvent(event), CreateFromEvent(s, event))
  {
    var op, t, key := BusEvent(event), CreateFromEvent(s, event), s.run + "." + event;
    var i := Chosen(s.(created := s.created + {key}), key);
    AddNil(s.tasks);
    hide Steps, Chosen;
    if |t.emissions| > |s.emissions| {
      var row := s.fixtures[i.value];
      assert forall x | x in Effects(row.receipt, row.compensation) :: RowCarries(row, x);
      GrantSteps(s, op, t, s.tasks, t.tasks[|s.tasks|]);
    } else {
      QuietSteps(s, op, t, s.tasks, t.tasks[|s.tasks|..]);
    }
  }

  lemma RequestSteps(s: State, op: Op, tasks: seq<Task>, r: Request, origin: Origin)
    requires forall v | v in tasks :: v in s.tasks
    requires || (op.Webhook? && op.payload == Some(r)) || (op.Fetched? && op.reply == Some(r))
             || (op.Created? && op.reply.Some? && r == op.reply.value.(status := r.status))
    ensures Steps(s, op, ResolveApproved(s.(tasks := tasks), r, origin))
  {
    var t := ResolveApproved(s.(tasks := tasks), r, origin);
    AddNil(tasks);
    hide Steps;
    if |t.emissions| > |s.emissions| {
      assert forall x | x in Effects(r.receipt, r.compensation) :: Carries(r, x);
      GrantSteps(s, op, t, tasks, t.tasks[|tasks|]);
    } else {
      QuietSteps(s, op, t, tasks, []);
    }
  }

  lemma SyntheticSteps(s: State, op: Op, tasks: seq<Task>, event: string, key: string)
    requires forall v | v in tasks :: v in s.tasks
    ensures Steps(s, op, EmitSynthetic(s.(tasks := tasks), event, key))
  {
    var t := EmitSynthetic(s.(tasks := tasks), event, key);
    AddNil(tasks);
    hide Steps;
    if |t.emissions| > |s.emissions| {
      GrantSteps(s, op, t, tasks, t.tasks[|tasks|]);
    } else {
      QuietSteps(s, op, t, tasks, []);
    }
  }

  lemma StepSteps(s: State, op: Op)
    requires Enabled(s, op)
    ensures Steps(s, op, Step(s, op))
  {
    hide Steps, CreateFromEvent, AfterEmission, Without, NoTimers, ResolveApproved, EmitSynthetic;
    var t := Step(s, op);
    match op {
      case BusEvent(event) => EventSteps(s, event);
      case Emitted(i, ok) => AfterEmissionSteps(s, i, ok);
      case Start(_, _, _) =>
        AddNil(s.tasks);
        QuietSteps(s, op, t, s.tasks, []);
      case Stop =>
        NoTimersIn(s.tasks);
        AddNil(t.tasks);
        QuietSteps(s, op, t, t.tasks, []);
      case Webhook(signed, payload) =>
        AddNil(s.tasks);
        if signed && payload.Some? {
          RequestSteps(s, op, s.tasks, payload.value, Elsewhere);
        } else {
          QuietSteps(s, op, t, s.tasks, []);
        }
      case Created(i, reply, late) =>
        var tasks, u := Without(s.tasks, i), s.tasks[i];
        WithoutIn(s.tasks, i);
        AddNil(tasks);
        SyntheticSteps(s, op, tasks, u.event, u.key);
        if reply.Some? {
          RequestSteps(s, op, tasks, reply.value.(status := "approved"), Creator(u.event, u.key));
          var polling := [Polling(reply.value.id, u.key)];
          QuietSteps(s, op, s.(tasks := tasks + polling), tasks, polling);
        }
        QuietSteps(s, op, s.(tasks := tasks), tasks, []);
      case Fetched(i, reply) =>
        var tasks, u := Without(s.tasks, i), s.tasks[i];
        WithoutIn(s.tasks, i);
        AddNil(tasks);
        if reply.Some? { RequestSteps(s, op, tasks, reply.value, Poller(u.request, u.key)); }
        QuietSteps(s, op, s.(tasks := tasks + [Timer(u.request, u.key)]), tasks, [Timer(u.request, u.key)]);
        QuietSteps(s, op, s.(tasks := tasks), tasks, []);
      case Tick(i, late) =>
        var tasks, u := Without(s.tasks, i), s.tasks[i];
        WithoutIn(s.tasks, i);
        AddNil(tasks);
        QuietSteps(s, op, s.(tasks := tasks + [Polling(u.request, u.key)]), tasks, [Polling(u.request, u.key)]);
        QuietSteps(s, op, s.(tasks := tasks), tasks, []);
    }
  }

  lemma WantedStays(ops: seq<Op>, op: Op, a: nat, x: Effect)
    requires a < |Run(ops).emissions| <= |Run(ops + [op]).emissions| && Run(ops).emissions <= Run(ops + [op]).emissions
    requires Run(ops).emissions[a].Approval? && WantedAt(ops, a, x)
    ensures WantedAt(ops + [op], a, x)
  {
    var all := ops + [op];
    Unsnoc(ops, op);
    hide Run, Wants, LastStart;
    assert StepOf(all, a) == StepOf(ops, a);
    assert all[..StepOf(all, a)] == ops[..StepOf(ops, a)];
  }

  ghost predicate AllWanted(ops: seq<Op>) {
    && (forall u | u in Run(ops).tasks :: TaskWanted(ops, u))
    && forall n | 0 <= n < |Run(ops).emissions| && !Run(ops).emissions[n].Approval? ::
         var a := Run(ops).emissions[n].approval;
         a < n && Run(ops).emissions[a].Approval? && WantedAt(ops, a, EffectOf(Run(ops).emissions[n]))
  }

  /** What one enabled step does to a run. */
  ghost predicate Extended(ops: seq<Op>, op: Op) {
    var s, t := Run(ops), Run(ops + [op]);
    && Steps(s, op, t) && s.emissions <= t.emissions && |t.emissions| <= |s.emissions| + 1
    && (|t.emissions| > |s.emissions| && t.emissions[|s.emissions|].Approval? ==> s.started)
  }

  lemma ExtendedSnoc(ops: seq<Op>, op: Op)
    requires Enabled(Run(ops), op)
    ensures Extended(ops, op)
  {
    hide Step, Steps, Grants;
    Unsnoc(ops, op);
    StepSteps(Run(ops), op);
    StepGrants(Run(ops), op);
  }

  lemma TaskSnoc(ops: seq<Op>, op: Op, u: Task)
    requires AllWanted(ops) && Extended(ops, op) && u in Run(ops + [op]).tasks
    ensures TaskWanted(ops + [op], u)
  {
    hide Run, Wants, WantedAt;
    var s, t := Run(ops), Run(ops + [op]);
    assert FromStep(s, op, t, u);
    if u.Emitting? {
      if v :| v in s.tasks && LeftOf(v, u) {
        assert TaskWanted(ops, v);
        forall x | x in u.todo ensures WantedAt(ops + [op], u.approval, x) { WantedStays(ops, op, u.approval, x); }
      } else {
        forall x | x in u.todo ensures WantedAt(ops + [op], u.approval, x) { WantedNow(ops, op, x); }
      }
    }
  }

  lemma EffectSnoc(ops: seq<Op>, op: Op, n: nat)
    requires AllWanted(ops) && Extended(ops, op)
    requires n < |Run(ops + [op]).emissions| && !Run(ops + [op]).emissions[n].Approval?
    ensures var t := Run(ops + [op]);
            var a := t.emissions[n].approval;
            a < n && t.emissions[a].Approval? && WantedAt(ops + [op], a, EffectOf(t.emissions[n]))
  {
    hide Run, Wants, WantedAt;
    var s, t := Run(ops), Run(ops + [op]);
    var e := t.emissions[n];
    if n == |s.emissions| {
      assert EffectFrom(s, e);
      var v :| v in s.tasks && v.Emitting? && v.approval == e.approval && EffectOf(e) in v.todo;
      assert TaskWanted(ops, v);
    }
    WantedStays(ops, op, e.approval, EffectOf(e));
  }

  lemma WantedSnoc(ops: seq<Op>, op: Op)
    requires AllWanted(ops)
    ensures AllWanted(ops + [op])
  {
    if !Enabled(Run(ops), op) {
      Unsnoc(ops, op);
      KeptWanted(ops, op);
    } else {
      ExtendedSnoc(ops, op);
      hide Run, WantedAt, TaskWanted, Extended;
      var t := Run(ops + [op]);
      forall u | u in t.tasks ensures TaskWanted(ops + [op], u) { TaskSnoc(ops, op, u); }
      forall n | 0 <= n < |t.emissions| && !t.emissions[n].Approval?
        ensures var a := t.emissions[n].approval;
                a < n && t.emissions[a].Approval? && WantedAt(ops + [op], a, EffectOf(t.emissions[n]))
      {
        EffectSnoc(ops, op, n);
      }
    }
  }

  lemma KeptWanted(ops: seq<Op>, op: Op)
    requires AllWanted(ops) && Run(ops + [op]) == Run(ops)
    ensures AllWanted(ops + [op])
  {
    var all, s := ops + [op], Run(ops);
    hide Run, WantedAt;
    forall u | u in s.tasks ensures TaskWanted(all, u) {
      assert TaskWanted(ops, u);
      if u.Emitting? {
        forall x | x in u.todo ensures WantedAt(all, u.approval, x) { WantedStays(ops, op, u.approval, x); }
      }
    }
    forall n | 0 <= n < |s.emissions| && !s.emissions[n].Approval?
      ensures WantedAt(all, s.emissions[n].approval, EffectOf(s.emissions[n]))
    {
      WantedStays(ops, op, s.emissions[n].approval, EffectOf(s.emissions[n]));
    }
  }

  lemma WantedNow(ops: seq<Op>, op: Op, x: Effect)
    requires var s, t := Run(ops), Run(ops + [op]);
             |t.emissions| > |s.emissions| && t.emissions[|s.emissions|].Approval?
             && s.started && Wants(op, s.fixtures, t.emissions[|s.emissions|], x)
    ensures WantedAt(ops + [op], |Run(ops).emissions|, x)
  {
    var all := ops + [op];
    Unsnoc(ops, op);
    RunCurrent(ops);
    hide Run, Wants, LastStart;
    assert StepOf(all, |Run(ops).emissions|) == |ops|;
    assert all[..|ops|] == ops && all[|ops|] == op;
  }

  /** Over every run: a receipt or compensation is emitted only for an approval whose request or fixture row
      carries one. */
  lemma {:induction false} EffectCaused(ops: seq<Op>)
    ensures AllWanted(ops)
  {
    if ops != [] {
      EffectCaused(ops[..|ops| - 1]);
      WantedSnoc(ops[..|ops| - 1], ops[|ops| - 1]);
      Snoc(ops);
    }
  }
}
