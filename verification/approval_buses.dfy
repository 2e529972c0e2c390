/** Which bus the side effects of an approval go to. */
module ApprovalBuses {
  import opened ApprovalAdapter
  import opened Options
  import opened Sequences

  predicate IsEffectOf(e: Emission, a: nat) { !e.Approval? && e.approval == a }

  /** The first side effect of approval a. */
  function FirstEffect(es: seq<Emission>, a: nat): (n: Option<nat>)
    ensures n.Some? ==> n.value < |es| && IsEffectOf(es[n.value], a)
    ensures forall k | 0 <= k < (if n.Some? then n.value else |es|) :: !IsEffectOf(es[k], a)
  {
    if es == [] then None
    else
      var k := |es| - 1;
      var f := FirstEffect(es[..k], a);
      if f.Some? then f else if IsEffectOf(es[k], a) then Some(k) else None
  }

  lemma FirstEffectPush(es: seq<Emission>, e: Emission, a: nat)
    ensures FirstEffect(es + [e], a)
         == if FirstEffect(es, a).Some? then FirstEffect(es, a) else if IsEffectOf(e, a) then Some(|es|) else None
  {
    Unsnoc(es, e);
  }

  /** A closure that has captured a bus has emitted, and its request's effects all follow the first. */
  predicate RoutedTask(es: seq<Emission>, t: Task) {
    t.Emitting? ==>
      && t.approval < |es| && es[t.approval].Approval? && es[t.approval].kind == t.kind
      && var f := FirstEffect(es, t.approval);
         if t.bus.None? then f.None? else f.Some? && (t.kind.ByRequest? ==> es[f.value].bus == t.bus.value)
  }

  predicate ApprovalsDiffer(ts: seq<Task>, i: nat, j: nat)
    requires i < |ts| && j < |ts|
  {
    ts[i].Emitting? && ts[j].Emitting? ==> ts[i].approval != ts[j].approval
  }

  /** One closure per approval. */
  ghost predicate RoutedTasks(es: seq<Emission>, ts: seq<Task>) {
    && (forall i | 0 <= i < |ts| :: RoutedTask(es, ts[i]))
    && forall i, j | 0 <= i < j < |ts| :: ApprovalsDiffer(ts, i, j)
  }

  predicate RoutedEffect(es: seq<Emission>, n: nat)
    requires n < |es|
  {
    !es[n].Approval? ==>
      && es[n].approval < n && es[es[n].approval].Approval?
      && var f := FirstEffect(es, es[n].approval);
         f.Some? && (es[es[n].approval].kind.ByRequest? ==> es[n].bus == es[f.value].bus)
  }

  ghost predicate RoutedEffects(es: seq<Emission>) { forall n | 0 <= n < |es| :: RoutedEffect(es, n) }

  ghost predicate Routed(s: State) { RoutedTasks(s.emissions, s.tasks) && RoutedEffects(s.emissions) }

  predicate AnotherApproval(u: Task, t: Task) { u.Emitting? && t.Emitting? ==> u.approval != t.approval }

  lemma WithoutRouted(es: seq<Emission>, ts: seq<Task>, i: nat)
    requires RoutedTasks(es, ts) && i < |ts|
    ensures RoutedTasks(es, Without(ts, i)) && RoutedTask(es, ts[i])
    ensures forall k | 0 <= k < |ts| - 1 :: AnotherApproval(Without(ts, i)[k], ts[i])
  {
    var us := Without(ts, i);
    forall k | 0 <= k < |us| ensures RoutedTask(es, us[k]) && AnotherApproval(us[k], ts[i]) {
      assert if k < i then ApprovalsDiffer(ts, k, i) else ApprovalsDiffer(ts, i, k + 1);
    }
    forall j, k | 0 <= j < k < |us| ensures ApprovalsDiffer(us, j, k) {
      assert ApprovalsDiffer(ts, if j < i then j else j + 1, if k < i then k else k + 1);
    }
  }

  lemma PushRouted(es: seq<Emission>, ts: seq<Task>, t: Task)
    requires RoutedTasks(es, ts) && RoutedTask(es, t)
    requires forall k | 0 <= k < |ts| :: AnotherApproval(ts[k], t)
    ensures RoutedTasks(es, ts + [t])
  {
    var us := ts + [t];
    forall j, k | 0 <= j < k < |us| ensures ApprovalsDiffer(us, j, k) {
      if k < |ts| { assert ApprovalsDiffer(ts, j, k); } else { assert AnotherApproval(ts[j], t); }
    }
  }

  lemma {:induction false} NoTimersAnother(ts: seq<Task>, u: Task)
    requires forall k | 0 <= k < |ts| :: AnotherApproval(ts[k], u)
    ensures forall k | 0 <= k < |NoTimers(ts)| :: AnotherApproval(NoTimers(ts)[k], u)
  {
    if ts != [] { NoTimersAnother(ts[..|ts| - 1], u); }
  }

  lemma {:induction false} NoTimersRouted(es: seq<Emission>, ts: seq<Task>)
    requires RoutedTasks(es, ts)
    ensures RoutedTasks(es, NoTimers(ts))
  {
    if ts != [] {
      var front, t := ts[..|ts| - 1], ts[|ts| - 1];
      forall i, j | 0 <= i < j < |front| ensures ApprovalsDiffer(front, i, j) { assert ApprovalsDiffer(ts, i, j); }
      NoTimersRouted(es, front);
      if !t.Timer? {
        forall k | 0 <= k < |front| ensures AnotherApproval(front[k], t) { assert ApprovalsDiffer(ts, k, |front|); }
        NoTimersAnother(front, t);
        PushRouted(es, NoTimers(front), t);
      } else {
        AddNil(NoTimers(front));
      }
    }
  }

  /** An emission does not disturb what it has nothing to do with. */
  lemma EmissionRouted(es: seq<Emission>, e: Emission, ts: seq<Task>)
    requires RoutedTasks(es, ts) && RoutedEffects(es)
    requires e.Approval? || forall k | 0 <= k < |ts| && ts[k].Emitting? :: ts[k].approval != e.approval
    requires !e.Approval? ==> RoutedEffect(es + [e], |es|)
    ensures RoutedTasks(es + [e], ts) && RoutedEffects(es + [e])
  {
    var fs := es + [e];
    forall i | 0 <= i < |ts| ensures RoutedTask(fs, ts[i]) {
      assert RoutedTask(es, ts[i]);
      if ts[i].Emitting? { FirstEffectPush(es, e, ts[i].approval); }
    }
    forall n | 0 <= n < |fs| ensures RoutedEffect(fs, n) {
      if n < |es| {
        assert RoutedEffect(es, n);
        if !es[n].Approval? { FirstEffectPush(es, e, es[n].approval); }
      }
    }
  }

  /** At most one emission joins, on the current bus unless a request's effect follows an earlier one. */
  ghost predicate EmitsOn(s: State, t: State) {
    && s.emissions <= t.emissions && |t.emissions| <= |s.emissions| + 1
    && (|t.emissions| > |s.emissions| && Captures(t.emissions, |s.emissions|) ==>
          t.emissions[|s.emissions|].bus == s.bus)
  }

  /** Emission n goes to the bus of its moment: an approval, a fixture row's effect, a request's first. */
  predicate Captures(es: seq<Emission>, n: nat)
    requires n < |es|
  {
    es[n].Approval? || es[n].approval >= |es| || !es[es[n].approval].Approval? || !es[es[n].approval].kind.ByRequest?
    || FirstEffect(es, es[n].approval) == Some(n)
  }

  lemma GrantedRouted(s: State, keys: set<string>, key: string, request: string, todo: seq<Effect>, kind: Kind,
                      origin: Origin)
    requires Routed(s)
    ensures var t := Granted(s, keys, key, request, todo, kind, origin); Routed(t) && EmitsOn(s, t) && t.bus == s.bus
  {
    var es, n, e := s.emissions, |s.emissions|, Approval(s.bus, key, request, kind);
    var t := Emitting(n, todo, kind, None, origin);
    EmissionRouted(es, e, s.tasks);
    FirstEffectPush(es, e, n);
    forall k | 0 <= k < n ensures !IsEffectOf(es[k], n) { assert RoutedEffect(es, k); }
    forall k | 0 <= k < |s.tasks| ensures AnotherApproval(s.tasks[k], t) { assert RoutedTask(es, s.tasks[k]); }
    PushRouted(es + [e], s.tasks, t);
  }

  lemma EffectRouted(s: State, t: Task)
    requires Routed(s) && t.Emitting? && RoutedTask(s.emissions, t) && t.todo != [] && !NoBus(s, t)
    requires forall k | 0 <= k < |s.tasks| :: AnotherApproval(s.tasks[k], t)
    ensures Routed(AfterEmission(s, t, true))
  {
    var u := AfterEmission(s, t, true);
    var e := u.emissions[|s.emissions|];
    FirstEffectPush(s.emissions, e, t.approval);
    forall k | 0 <= k < |s.tasks| && s.tasks[k].Emitting? ensures s.tasks[k].approval != e.approval {
      assert AnotherApproval(s.tasks[k], t);
    }
    EmissionRouted(s.emissions, e, s.tasks);
    PushRouted(u.emissions, s.tasks, u.tasks[|s.tasks|]);
  }

  lemma AfterEmissionRouted(s: State, t: Task, ok: bool)
    requires Routed(s) && t.Emitting? && RoutedTask(s.emissions, t)
    requires forall k | 0 <= k < |s.tasks| :: AnotherApproval(s.tasks[k], t)
    ensures var u := AfterEmission(s, t, ok); Routed(u) && EmitsOn(s, u) && u.bus == s.bus
  {
    if !ok || NoBus(s, t) {
      match t.origin {
        case Elsewhere =>
        case Poller(request, key) => PushRouted(s.emissions, s.tasks, Timer(request, key));
        case Creator(event, key) => GrantedRouted(s, {key}, key, "req_auto_" + event, [], Synthetic, Elsewhere);
      }
    } else if t.todo != [] {
      EffectRouted(s, t);
      FirstEffectPush(s.emissions, AfterEmission(s, t, true).emissions[|s.emissions|], t.approval);
    }
  }

  lemma EventRouted(s: State, event: string)
    requires Routed(s)
    ensures var u := CreateFromEvent(s, event); Routed(u) && EmitsOn(s, u) && u.bus == s.bus
  {
    hide RoutedTasks, RoutedEffects, Granted, Captures, Chosen;
    var key := s.run + "." + event;
    var s1 := s.(created := s.created + {key});
    PushRouted(s.emissions, s.tasks, Creating(event, key));
    var i := Chosen(s1, key);
    if i.Some? {
      var row := s.fixtures[i.value];
      GrantedRouted(Took(s1, i.value), {key, row.key}, row.key, row.id, Effects(row.receipt, row.compensation),
        ByFixture, Elsewhere);
    }
  }

  lemma StepRouted(s: State, op: Op)
    requires Routed(s) && Enabled(s, op)
    ensures Routed(Step(s, op)) && EmitsOn(s, Step(s, op)) && Step(s, op).bus == s.bus + if op.Start? then 1 else 0
  {
    hide RoutedTasks, RoutedEffects, Granted, Captures, CreateFromEvent, AfterEmission;
    match op {
      case Start(_, _, _) =>
      case Stop => NoTimersRouted(s.emissions, s.tasks);
      case BusEvent(event) => EventRouted(s, event);
      case Webhook(_, payload) =>
        if payload.Some? {
          var r := payload.value;
          GrantedRouted(s, {r.key}, r.key, r.id, Effects(r.receipt, r.compensation), ByRequest, Elsewhere);
        }
      case Created(i, reply, late) =>
        var t, u := s.tasks[i], s.(tasks := Without(s.tasks, i));
        WithoutRouted(s.emissions, s.tasks, i);
        GrantedRouted(u, {t.key}, t.key, "req_auto_" + t.event, [], Synthetic, Elsewhere);
        if reply.Some? {
          var r := reply.value;
          GrantedRouted(u, {r.key}, r.key, r.id, Effects(r.receipt, r.compensation), ByRequest,
            Creator(t.event, t.key));
          PushRouted(u.emissions, u.tasks, Polling(r.id, t.key));
        }
      case Fetched(i, reply) =>
        var t, u := s.tasks[i], s.(tasks := Without(s.tasks, i));
        WithoutRouted(s.emissions, s.tasks, i);
        PushRouted(u.emissions, u.tasks, Timer(t.request, t.key));
        if reply.Some? {
          var r := reply.value;
          GrantedRouted(u, {r.key}, r.key, r.id, Effects(r.receipt, r.compensation), ByRequest,
            Poller(t.request, t.key));
        }
      case Tick(i, _) =>
        var t, u := s.tasks[i], s.(tasks := Without(s.tasks, i));
        WithoutRouted(s.emissions, s.tasks, i);
        PushRouted(u.emissions, u.tasks, Polling(t.request, t.key));
      case Emitted(i, ok) =>
        WithoutRouted(s.emissions, s.tasks, i);
        AfterEmissionRouted(s.(tasks := Without(s.tasks, i)), s.tasks[i], ok);
    }
  }

  function Starts(ops: seq<Op>): nat {
    if ops == [] then 0 else Starts(ops[..|ops| - 1]) + if ops[|ops| - 1].Start? then 1 else 0
  }

  /** The step of the run that put emission n on a bus. */
  function StepOf(ops: seq<Op>, n: nat): (k: nat)
    requires n < |Run(ops).emissions|
    ensures k < |ops|
  {
    var front := ops[..|ops| - 1];
    if n < |Run(front).emissions| then StepOf(front, n) else |front|
  }

  ghost predicate Stamped(ops: seq<Op>) {
    var es := Run(ops).emissions;
    forall n | 0 <= n < |es| && Captures(es, n) :: es[n].bus == Starts(ops[..StepOf(ops, n)])
  }

  lemma {:induction false} RunRouted(ops: seq<Op>)
    ensures Routed(Run(ops)) && Run(ops).bus == Starts(ops) && Stamped(ops)
  {
    if ops != [] {
      hide RoutedTasks, RoutedEffects, Captures, Step;
      var front, op := ops[..|ops| - 1], ops[|ops| - 1];
      RunRouted(front);
      if Enabled(Run(front), op) { StepRouted(Run(front), op); }
      StampedSnoc(front, op);
      Snoc(ops);
    }
  }

  lemma StampedSnoc(ops: seq<Op>, op: Op)
    requires Routed(Run(ops)) && Run(ops).bus == Starts(ops) && Stamped(ops) && EmitsOn(Run(ops), Run(ops + [op]))
    ensures Stamped(ops + [op])
  {
    hide Run, RoutedTasks, RoutedEffects, Captures;
    var all := ops + [op];
    var es, fs := Run(ops).emissions, Run(all).emissions;
    Unsnoc(ops, op);
    forall n | 0 <= n < |fs| && Captures(fs, n) ensures fs[n].bus == Starts(all[..StepOf(all, n)]) {
      if n < |es| {
        CapturesBefore(es, fs, n);
        assert all[..StepOf(all, n)] == ops[..StepOf(ops, n)];
      }
    }
  }

  lemma CapturesBefore(es: seq<Emission>, fs: seq<Emission>, n: nat)
    requires RoutedEffects(es) && es <= fs && |fs| <= |es| + 1 && n < |es|
    ensures Captures(fs, n) <==> Captures(es, n)
  {
    assert RoutedEffect(es, n);
    if fs != es && !es[n].Approval? {
      FirstEffectPush(es, fs[|es|], es[n].approval);
      assert fs == es + [fs[|es|]];
    }
  }

  /** The step at which the bus for side effect n was looked up: its own for a fixture row, the first side
      effect's for a request. */
  function CaptureStep(ops: seq<Op>, n: nat): (k: nat)
    requires n < |Run(ops).emissions|
    ensures k < |ops|
  {
    var es := Run(ops).emissions;
    if Captures(es, n) then StepOf(ops, n)
    else StepOf(ops, FirstEffect(es, es[n].approval).value)
  }

  lemma {:induction false} NoStartsBetween(ops: seq<Op>, j: nat, k: nat)
    requires j <= k <= |ops|
    ensures Starts(ops[..j]) <= Starts(ops[..k])
    ensures Starts(ops[..j]) == Starts(ops[..k]) <==> forall l | j <= l < k :: !ops[l].Start?
    decreases k
  {
    if j < k {
      NoStartsBetween(ops, j, k - 1);
      assert ops[..k][..k - 1] == ops[..k - 1];
    }
  }

  /** That step is the one before which the emission was not there and after which it is. */
  lemma {:induction false} StepOfIs(ops: seq<Op>, n: nat)
    requires n < |Run(ops).emissions|
    ensures var k := StepOf(ops, n);
            |Run(ops[..k]).emissions| == n < |Run(ops[..k + 1]).emissions| && !ops[k].Start?
  {
    var front, k := ops[..|ops| - 1], StepOf(ops, n);
    RunRouted(front);
    if n < |Run(front).emissions| {
      StepOfIs(front, n);
      assert front[..k] == ops[..k] && front[..k + 1] == ops[..k + 1];
    } else {
      assert ops[..k + 1] == ops;
      if Enabled(Run(front), ops[k]) { StepRouted(Run(front), ops[k]); }
    }
  }

  lemma {:induction false} StepsInOrder(ops: seq<Op>, m: nat, n: nat)
    requires m < n < |Run(ops).emissions|
    ensures StepOf(ops, m) < StepOf(ops, n)
  {
    var front := ops[..|ops| - 1];
    RunRouted(front);
    if Enabled(Run(front), ops[|ops| - 1]) { StepRouted(Run(front), ops[|ops| - 1]); }
    if n < |Run(front).emissions| {
      StepsInOrder(front, m, n);
    }
  }

  /** Over every run: a side effect goes to the bus of its approval if and only if no start happened between
      the approval and the step at which the bus for the side effect was looked up. */
  lemma EffectBusIff(ops: seq<Op>, n: nat)
    requires n < |Run(ops).emissions| && !Run(ops).emissions[n].Approval?
    ensures var es := Run(ops).emissions;
            var a := es[n].approval;
            && a < n && es[a].Approval? && StepOf(ops, a) < CaptureStep(ops, n)
            && (es[n].bus == es[a].bus <==> forall l | StepOf(ops, a) < l < CaptureStep(ops, n) :: !ops[l].Start?)
  {
    hide Run, Starts, StepOf;
    var es := Run(ops).emissions;
    RunRouted(ops);
    assert RoutedEffect(es, n);
    var a := es[n].approval;
    var f := if Captures(es, n) then n else FirstEffect(es, a).value;
    assert RoutedEffect(es, f) && Captures(es, f) && Captures(es, a);
    StepsInOrder(ops, a, f);
    StepOfIs(ops, a);
    NoStartsBetween(ops, StepOf(ops, a), StepOf(ops, f));
  }

  /** A restart between an approval and its side effects sends them to the new run's bus, which never
      saw the approval. */
  lemma EffectOnAnotherBus(r: Request)
    requires r.status == "approved" && r.receipt
    ensures var s := Run([Start("a", false, []), Webhook(true, Some(r)), Start("b", false, []), Emitted(0, true)]);
            && |s.emissions| == 2 && s.emissions[0].Approval? && s.emissions[1] == Receipt(2, 0)
            && s.emissions[0].bus == 1
  {
    hide Run;
    var a, b, c, d := Start("a", false, []), Webhook(true, Some(r)), Start("b", false, []), Emitted(0, true);
    assert [] + [a] == [a] && [a] + [b] == [a, b] && [a, b] + [c] == [a, b, c] && [a, b, c] + [d] == [a, b, c, d];
    RunNothing();
    RunPush([], a);
    var s1 := Started(INITIAL, "a", false, []);
    RunPush([a], b);
    var s2 := Granted(s1, {r.key}, r.key, r.id, Effects(r.receipt, r.compensation), ByRequest, Elsewhere);
    assert Run([a, b]) == s2;
    RunPush([a, b], c);
    var s3 := Started(s2, "b", false, []);
    assert Run([a, b, c]) == s3;
    RunPush([a, b, c], d);
    hide Granted, Started, Step;
    var t := Emitting(0, Effects(r.receipt, r.compensation), ByRequest, None, Elsewhere);
    EffectEmitted(s3, t);
  }

  lemma EffectEmitted(s: State, t: Task)
    requires s.started && t.Emitting? && t.todo != [] && t.todo[0] == ReceiptEffect && t.kind.ByRequest? && t.bus.None?
    ensures AfterEmission(s.(tasks := []), t, true).emissions == s.emissions + [Receipt(s.bus, t.approval)]
  {}
}
