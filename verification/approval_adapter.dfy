/**
 The approval adapter: closures that suspend at every await, interleaved in any way, with webhooks, timers, failing
 emissions and restarts in between.
 */
module ApprovalAdapter {
  import opened Options
  import opened Sequences

  /** A request as the API or a webhook reports it; the two flags say whether its metadata carry a
      usable receipt and a usable compensation. */
  datatype Request = Request(id: string, key: string, status: string, receipt: bool, compensation: bool)

  /** A stored fixture row. */
  datatype Row = Row(id: string, key: string, approved: bool, receipt: bool, compensation: bool)

  /** Where an approval comes from. */
  datatype Kind = ByRequest | ByFixture | Synthetic

  /** What is put on a bus; `bus` counts the starts of the adapter, and a side effect names the place
      of its approval. */
  datatype Emission =
    | Approval(bus: nat, key: string, request: string, kind: Kind)
    | Receipt(bus: nat, approval: nat)
    | Compensation(bus: nat, approval: nat)

  datatype Effect = ReceiptEffect | CompensationEffect

  /** Who awaits an approval: what is left to do when its emission fails. */
  datatype Origin = Elsewhere | Poller(request: string, key: string) | Creator(event: string, key: string)

  /** A suspended closure. `bus` is the one captured for the remaining effects, if one has been. */
  datatype Task =
    | Creating(event: string, key: string)
    | Polling(request: string, key: string)
    | Timer(request: string, key: string)
    | Emitting(approval: nat, todo: seq<Effect>, kind: Kind, bus: Option<nat>, origin: Origin)

  /** The closure variables of the adapter, what is suspended, everything emitted, and, since the last
      start, which fixture rows were taken. */
  datatype State = State(started: bool, bus: nat, run: string, auto: bool, fixtures: seq<Row>, created: set<string>,
                         resolved: set<string>, used: set<nat>, tasks: seq<Task>, emissions: seq<Emission>,
                         since: nat, taken: seq<nat>)

  const INITIAL := State(false, 0, "", false, [], {}, {}, {}, [], [], 0, [])

  datatype Op =
    | Start(run: string, auto: bool, fixtures: seq<Row>)
    | Stop
    | BusEvent(event: string)                             // a steer verdict or a challenge
    | Webhook(signed: bool, payload: Option<Request>)     // None when the payload has no string key
    | Created(i: nat, reply: Option<Request>, late: bool) // the POST of task i is over
    | Fetched(i: nat, reply: Option<Request>)             // the GET of task i is over
    | Tick(i: nat, late: bool)                            // the timer of task i fires
    | Emitted(i: nat, ok: bool)                           // the emission task i awaits is over

  function Without(tasks: seq<Task>, i: nat): seq<Task>
    requires i < |tasks|
  {
    tasks[..i] + tasks[i + 1..]
  }

  function Effects(receipt: bool, compensation: bool): seq<Effect> {
    (if receipt then [ReceiptEffect] else []) + if compensation then [CompensationEffect] else []
  }

  /** The keys are marked and the approval is emitted in one go; then the closure suspends. */
  function Granted(s: State, keys: set<string>, key: string, request: string, todo: seq<Effect>, kind: Kind,
                   origin: Origin): State {
    s.(resolved := s.resolved + keys, emissions := s.emissions + [Approval(s.bus, key, request, kind)],
       tasks := s.tasks + [Emitting(|s.emissions|, todo, kind, None, origin)])
  }

  function ResolveApproved(s: State, r: Request, origin: Origin): State {
    if !s.started || r.key in s.resolved || r.status != "approved" then s
    else Granted(s, {r.key}, r.key, r.id, Effects(r.receipt, r.compensation), ByRequest, origin)
  }

  function EmitFixtureRow(s: State, row: Row, eventKey: string): State {
    if !s.started || eventKey in s.resolved || row.key in s.resolved then s
    else Granted(s, {eventKey, row.key}, row.key, row.id, Effects(row.receipt, row.compensation), ByFixture, Elsewhere)
  }

  function EmitSynthetic(s: State, event: string, key: string): State {
    if !s.started || key in s.resolved then s
    else Granted(s, {key}, key, "req_auto_" + event, [], Synthetic, Elsewhere)
  }

  function Poll(s: State, request: string, key: string, late: bool): State {
    if !s.started || key in s.resolved || late then s else s.(tasks := s.tasks + [Polling(request, key)])
  }

  /** Row k is approved, not used, and has the key if one is asked for. */
  predicate Usable(s: State, key: Option<string>, k: nat)
    requires k < |s.fixtures|
  {
    k !in s.used && s.fixtures[k].approved && (key.None? || s.fixtures[k].key == key.value)
  }

  /** The first usable row from i on. */
  function FirstRow(s: State, key: Option<string>, i: nat): (r: Option<nat>)
    requires i <= |s.fixtures|
    ensures r.Some? ==> i <= r.value < |s.fixtures| && Usable(s, key, r.value)
    ensures forall k | i <= k < |s.fixtures| && (r.None? || k < r.value) :: !Usable(s, key, k)
    decreases |s.fixtures| - i
  {
    if i == |s.fixtures| then None else if Usable(s, key, i) then Some(i) else FirstRow(s, key, i + 1)
  }

  /** A row with the event's key if there is one, else any. */
  function Chosen(s: State, key: string): (r: Option<nat>)
    ensures r.Some? ==> r.value < |s.fixtures| && Usable(s, None, r.value)
    ensures r.None? ==> forall k | 0 <= k < |s.fixtures| :: !Usable(s, None, k)
    ensures (exists k | 0 <= k < |s.fixtures| :: Usable(s, Some(key), k)) ==> r.Some? && s.fixtures[r.value].key == key
  {
    var same := FirstRow(s, Some(key), 0);
    if same.Some? then same else FirstRow(s, None, 0)
  }

  function Took(s: State, i: nat): State { s.(used := s.used + {i}, taken := s.taken + [i]) }

  function CreateFromEvent(s: State, event: string): State {
    var key := s.run + "." + event;
    if !s.started || key in s.created then s
    else
      var s := s.(created := s.created + {key});
      if s.fixtures != [] then
        var i := Chosen(s, key);
        if i.None? then s else EmitFixtureRow(Took(s, i.value), s.fixtures[i.value], key)
      else s.(tasks := s.tasks + [Creating(event, key)])
  }

  /** The closure looks for the current bus on a stopped adapter, and throws: a request's once its approval
      is out, whatever is left to do, a fixture row's at each side effect. */
  predicate NoBus(s: State, t: Task)
    requires t.Emitting?
  {
    !s.started && if t.kind.ByRequest? then t.bus.None? else t.todo != []
  }

  /** The emission an approval's closure awaited is over: the next side effect, or the end. */
  function AfterEmission(s: State, t: Task, ok: bool): State
    requires t.Emitting?
  {
    if !ok || NoBus(s, t) then
      match t.origin
      case Elsewhere => s
      case Poller(request, key) => s.(tasks := s.tasks + [Timer(request, key)])
      case Creator(event, key) => if s.started && s.auto then EmitSynthetic(s, event, key) else s
    else if t.todo == [] then s
    else
      var bus := if t.kind.ByRequest? && t.bus.Some? then t.bus.value else s.bus;
      var e := match t.todo[0]
               case ReceiptEffect => Receipt(bus, t.approval)
               case CompensationEffect => Compensation(bus, t.approval);
      s.(emissions := s.emissions + [e], tasks := s.tasks + [t.(todo := t.todo[1..], bus := Some(bus))])
  }

  predicate Enabled(s: State, op: Op) {
    match op
    case Created(i, _, _) => i < |s.tasks| && s.tasks[i].Creating?
    case Fetched(i, _) => i < |s.tasks| && s.tasks[i].Polling?
    case Tick(i, _) => i < |s.tasks| && s.tasks[i].Timer?
    case Emitted(i, _) => i < |s.tasks| && s.tasks[i].Emitting?
    case _ => true
  }

  function AfterCreate(s: State, t: Task, reply: Option<Request>, late: bool): State
    requires t.Creating?
  {
    if !s.started then s
    else
      match reply
      case None => if s.auto then EmitSynthetic(s, t.event, t.key) else s
      case Some(r) =>
        if s.auto then ResolveApproved(s, r.(status := "approved"), Creator(t.event, t.key))
        else Poll(s, r.id, t.key, late)
  }

  function AfterFetch(s: State, t: Task, reply: Option<Request>): State
    requires t.Polling?
  {
    match reply
    case None => s.(tasks := s.tasks + [Timer(t.request, t.key)])
    case Some(r) =>
      if r.status == "approved" then ResolveApproved(s, r, Poller(t.request, t.key))
      else if r.status == "pending" || r.status == "escalated" then s.(tasks := s.tasks + [Timer(t.request, t.key)])
      else s
  }

  function NoTimers(tasks: seq<Task>): seq<Task> {
    if tasks == [] then []
    else NoTimers(tasks[..|tasks| - 1]) + if tasks[|tasks| - 1].Timer? then [] else [tasks[|tasks| - 1]]
  }

  function Started(s: State, run: string, auto: bool, fixtures: seq<Row>): State {
    State(true, s.bus + 1, run, auto, fixtures, {}, {}, {}, s.tasks, s.emissions, |s.emissions|, [])
  }

  function Step(s: State, op: Op): State
    requires Enabled(s, op)
  {
    match op
    case Start(run, auto, fixtures) => Started(s, run, auto, fixtures)
    case Stop => s.(started := false, tasks := NoTimers(s.tasks))
    case BusEvent(event) => CreateFromEvent(s, event)
    case Webhook(signed, r) => if signed && r.Some? then ResolveApproved(s, r.value, Elsewhere) else s
    case Created(i, reply, late) => AfterCreate(s.(tasks := Without(s.tasks, i)), s.tasks[i], reply, late)
    case Fetched(i, reply) => AfterFetch(s.(tasks := Without(s.tasks, i)), s.tasks[i], reply)
    case Tick(i, late) => Poll(s.(tasks := Without(s.tasks, i)), s.tasks[i].request, s.tasks[i].key, late)
    case Emitted(i, ok) => AfterEmission(s.(tasks := Without(s.tasks, i)), s.tasks[i], ok)
  }

  // ---------- the adapter object ----------

  class Adapter {
    var started: bool
    var bus: nat
    var run: string
    var auto: bool
    var storedFixtures: seq<Row>
    var createdKeys: set<string>
    var resolvedKeys: set<string>
    var usedFixtureIndexes: set<nat>
    var tasks: seq<Task>
    var emissions: seq<Emission>
    ghost var since: nat
    ghost var taken: seq<nat>

    constructor ()
      ensures Now() == INITIAL
    {
      started, bus, run, auto, storedFixtures := false, 0, "", false, [];
      createdKeys, resolvedKeys, usedFixtureIndexes, tasks, emissions, since, taken := {}, {}, {}, [], [], 0, [];
    }

    ghost function Now(): State
      reads this
    {
      State(started, bus, run, auto, storedFixtures, createdKeys, resolvedKeys, usedFixtureIndexes, tasks, emissions,
            since, taken)
    }

    method StartUp(run: string, auto: bool, fixtures: seq<Row>)
      modifies this
      ensures Now() == Started(old(Now()), run, auto, fixtures)
    {
      started, bus, this.run, this.auto := true, bus + 1, run, auto;
      createdKeys, resolvedKeys, usedFixtureIndexes, storedFixtures := {}, {}, {}, fixtures;
      since, taken := |emissions|, [];
    }

    method EmitApproved(key: string, request: string, todo: seq<Effect>, kind: Kind, origin: Origin)
      modifies this`emissions, this`tasks
      ensures Now() == Granted(old(Now()), {}, key, request, todo, kind, origin)
    {
      tasks := tasks + [Emitting(|emissions|, todo, kind, None, origin)];
      emissions := emissions + [Approval(bus, key, request, kind)];
    }

    method Resolve(r: Request, origin: Origin)
      modifies this`resolvedKeys, this`emissions, this`tasks
      ensures Now() == ResolveApproved(old(Now()), r, origin)
    {
      if !started { return; }
      if r.key in resolvedKeys { return; }
      if r.status != "approved" { return; }
      resolvedKeys := resolvedKeys + {r.key};
      EmitApproved(r.key, r.id, Effects(r.receipt, r.compensation), ByRequest, origin);
    }

    method FindRow(key: Option<string>) returns (r: Option<nat>)
      ensures r == FirstRow(Now(), key, 0)
    {
      var i := 0;
      while i < |storedFixtures|
        invariant i <= |storedFixtures| && FirstRow(Now(), key, 0) == FirstRow(Now(), key, i)
      {
        var row := storedFixtures[i];
        if i !in usedFixtureIndexes && row.approved && (key.None? || row.key == key.value) { return Some(i); }
        i := i + 1;
      }
      return None;
    }

    method TakeFixture(eventKey: string) returns (row: Option<Row>)
      modifies this`usedFixtureIndexes, this`taken
      ensures var i := Chosen(old(Now()), eventKey);
              && row == (if i.None? then None else Some(storedFixtures[i.value]))
              && Now() == if i.None? then old(Now()) else Took(old(Now()), i.value)
    {
      var i := FindRow(Some(eventKey));
      if i.None? { i := FindRow(None); }
      if i.None? { return None; }
      usedFixtureIndexes := usedFixtureIndexes + {i.value};
      taken := taken + [i.value];
      return Some(storedFixtures[i.value]);
    }

    method EmitRow(row: Row, eventKey: string)
      modifies this`resolvedKeys, this`emissions, this`tasks
      ensures Now() == EmitFixtureRow(old(Now()), row, eventKey)
    {
      if !started { return; }
      if eventKey in resolvedKeys || row.key in resolvedKeys { return; }
      resolvedKeys := resolvedKeys + {eventKey};
      resolvedKeys := resolvedKeys + {row.key};
      assert resolvedKeys == old(resolvedKeys) + {eventKey, row.key};
      EmitApproved(row.key, row.id, Effects(row.receipt, row.compensation), ByFixture, Elsewhere);
    }

    method AutoApprove(event: string, key: string)
      modifies this`resolvedKeys, this`emissions, this`tasks
      ensures Now() == EmitSynthetic(old(Now()), event, key)
    {
      if !started || key in resolvedKeys { return; }
      resolvedKeys := resolvedKeys + {key};
      EmitApproved(key, "req_auto_" + event, [], Synthetic, Elsewhere);
    }

    method PollNow(request: string, key: string, late: bool)
      modifies this`tasks
      ensures Now() == Poll(old(Now()), request, key, late)
    {
      if !started || key in resolvedKeys || late { return; }
      tasks := tasks + [Polling(request, key)];
    }

    method OnEvent(event: string)
      modifies this
      ensures Now() == CreateFromEvent(old(Now()), event)
    {
      if !started { return; }
      var key := run + "." + event;
      if key in createdKeys { return; }
      createdKeys := createdKeys + {key};
      if |storedFixtures| > 0 {
        var row := TakeFixture(key);
        if row.Some? { EmitRow(row.value, key); }
        return;
      }
      tasks := tasks + [Creating(event, key)];
    }

    method HandleIngest(signed: bool, payload: Option<Request>) returns (status: nat)
      modifies this`resolvedKeys, this`emissions, this`tasks
      ensures Now() == Step(old(Now()), Webhook(signed, payload))
      ensures status == if !started then 503 else if !signed then 401 else if payload.None? then 400 else 200
    {
      if !started { return 503; }
      if !signed { return 401; }
      if payload.None? { return 400; }
      Resolve(payload.value, Elsewhere);
      return 200;
    }

    /** Continues the closure of task i. */
    method Resume(i: nat, op: Op)
      requires Enabled(Now(), op) && i < |tasks|
      requires op.Created? || op.Fetched? || op.Tick? || op.Emitted?
      requires i == op.i
      modifies this
      ensures Now() == Step(old(Now()), op)
    {
      var t := tasks[i];
      tasks := tasks[..i] + tasks[i + 1..];
      match op {
        case Created(_, reply, late) =>
          if !started { return; }
          if reply.Some? {
            if auto {
              Resolve(reply.value.(status := "approved"), Creator(t.event, t.key));
              return;
            }
            PollNow(reply.value.id, t.key, late);
          } else if auto {
            AutoApprove(t.event, t.key);
          }
        case Fetched(_, reply) =>
          if reply.Some? {
            if reply.value.status == "approved" {
              Resolve(reply.value, Poller(t.request, t.key));
              return;
            }
            if reply.value.status != "pending" && reply.value.status != "escalated" { return; }
          }
          tasks := tasks + [Timer(t.request, t.key)];
        case Tick(_, late) => PollNow(t.request, t.key, late);
        case Emitted(_, ok) => Continue(t, ok);
      }
    }

    /** The side effects that follow an approval, one per suspension. */
    method Continue(t: Task, ok: bool)
      requires t.Emitting?
      modifies this`resolvedKeys, this`emissions, this`tasks
      ensures Now() == AfterEmission(old(Now()), t, ok)
    {
      if !ok || (!started && if t.kind.ByRequest? then t.bus.None? else t.todo != []) {
        match t.origin {
          case Elsewhere =>
          case Poller(request, key) => tasks := tasks + [Timer(request, key)];
          case Creator(event, key) => if started && auto { AutoApprove(event, key); }
        }
        return;
      }
      if t.todo == [] { return; }
      var to := if t.kind.ByRequest? && t.bus.Some? then t.bus.value else bus;
      var e := if t.todo[0].ReceiptEffect? then Receipt(to, t.approval) else Compensation(to, t.approval);
      emissions := emissions + [e];
      tasks := tasks + [t.(todo := t.todo[1..], bus := Some(to))];
    }

    method ShutDown()
      modifies this`started, this`tasks
      ensures Now() == old(Now()).(started := false, tasks := NoTimers(old(tasks)))
    {
      var kept: seq<Task> := [];
      for i := 0 to |tasks|
        invariant kept == NoTimers(tasks[..i]) && started == old(started) && tasks == old(tasks)
      {
        assert tasks[..i + 1][..i] == tasks[..i];
        if !tasks[i].Timer? { kept := kept + [tasks[i]]; }
      }
      assert tasks[..|tasks|] == tasks;
      tasks := kept;
      started := false;
    }
  }

  // ---------- what every step keeps ----------

  /** An approval since the last start has its key marked. */
  predicate Marked(s: State, i: nat)
    requires i < |s.emissions|
  {
    s.emissions[i].Approval? ==> s.emissions[i].key in s.resolved && s.emissions[i].bus == s.bus
  }

  predicate DifferentKeys(s: State, i: nat, j: nat)
    requires i < |s.emissions| && j < |s.emissions|
  {
    s.emissions[i].Approval? && s.emissions[j].Approval? ==> s.emissions[i].key != s.emissions[j].key
  }

  /** No key is approved twice since the last start. */
  ghost predicate OncePerKey(s: State) {
    && s.since <= |s.emissions|
    && (forall i | s.since <= i < |s.emissions| :: Marked(s, i))
    && forall i, j | s.since <= i < j < |s.emissions| :: DifferentKeys(s, i, j)
  }

  predicate IsApproval(s: State, i: nat) { i < |s.emissions| && s.emissions[i].Approval? }

  /** A side effect comes behind its approval. */
  predicate FollowsApproval(s: State, i: nat)
    requires i < |s.emissions|
  {
    match s.emissions[i]
    case Approval(_, _, _, _) => true
    case Receipt(_, a) => a < i && IsApproval(s, a)
    case Compensation(_, a) => a < i && IsApproval(s, a)
  }

  predicate TaskSound(s: State, i: nat)
    requires i < |s.tasks|
  {
    s.tasks[i].Emitting? ==> IsApproval(s, s.tasks[i].approval)
  }

  ghost predicate EffectsFollow(s: State) {
    && (forall i | 0 <= i < |s.emissions| :: FollowsApproval(s, i))
    && forall i | 0 <= i < |s.tasks| :: TaskSound(s, i)
  }

  predicate TakenOnce(s: State, i: nat, j: nat)
    requires i < |s.taken| && j < |s.taken|
  {
    s.taken[i] != s.taken[j]
  }

  /** No fixture row is taken twice since the last start. */
  ghost predicate RowsOnce(s: State) {
    && (forall i | 0 <= i < |s.taken| :: s.taken[i] in s.used)
    && forall i, j | 0 <= i < j < |s.taken| :: TakenOnce(s, i, j)
  }

  ghost predicate Inv(s: State) { OncePerKey(s) && EffectsFollow(s) && RowsOnce(s) }

  /** Tasks may go, and come back as others that await the same approvals. */
  lemma TasksChange(s: State, t: State)
    requires Inv(s) && t == s.(tasks := t.tasks)
    requires forall i | 0 <= i < |t.tasks| && t.tasks[i].Emitting? :: IsApproval(s, t.tasks[i].approval)
    ensures Inv(t)
  {
    forall i | s.since <= i < |t.emissions| ensures Marked(t, i) { assert Marked(s, i); }
    forall i, j | s.since <= i < j < |t.emissions| ensures DifferentKeys(t, i, j) { assert DifferentKeys(s, i, j); }
    forall i | 0 <= i < |t.emissions| ensures FollowsApproval(t, i) { assert FollowsApproval(s, i); }
    forall i, j | 0 <= i < j < |t.taken| ensures TakenOnce(t, i, j) { assert TakenOnce(s, i, j); }
  }

  lemma TaskGone(s: State, i: nat)
    requires Inv(s) && i < |s.tasks|
    ensures Inv(s.(tasks := Without(s.tasks, i)))
  {
    var t := s.(tasks := Without(s.tasks, i));
    forall k | 0 <= k < |t.tasks| && t.tasks[k].Emitting? ensures IsApproval(s, t.tasks[k].approval) {
      assert TaskSound(s, if k < i then k else k + 1);
    }
    TasksChange(s, t);
  }

  lemma TaskAdded(s: State, t: Task)
    requires Inv(s) && (t.Emitting? ==> IsApproval(s, t.approval))
    ensures Inv(s.(tasks := s.tasks + [t]))
  {
    var u := s.(tasks := s.tasks + [t]);
    forall k | 0 <= k < |u.tasks| && u.tasks[k].Emitting? ensures IsApproval(s, u.tasks[k].approval) {
      if k < |s.tasks| { assert TaskSound(s, k); }
    }
    TasksChange(s, u);
  }

  /** One more emission: an approval of an unmarked key, or a side effect of an earlier approval. */
  lemma EmissionAdded(s: State, t: State, e: Emission)
    requires Inv(s) && t == s.(resolved := t.resolved, emissions := s.emissions + [e], tasks := t.tasks)
    requires s.resolved <= t.resolved
    requires match e
             case Approval(bus, key, _, _) => key !in s.resolved && key in t.resolved && bus == s.bus
             case Receipt(_, a) => IsApproval(s, a)
             case Compensation(_, a) => IsApproval(s, a)
    requires forall i | 0 <= i < |t.tasks| && t.tasks[i].Emitting? :: IsApproval(t, t.tasks[i].approval)
    ensures Inv(t)
  {
    var n := |s.emissions|;
    forall i | s.since <= i < n + 1 ensures Marked(t, i) { if i < n { assert Marked(s, i); } }
    forall i, j | s.since <= i < j < n + 1 ensures DifferentKeys(t, i, j) {
      if j < n { assert DifferentKeys(s, i, j); } else { assert Marked(s, i); }
    }
    forall i | 0 <= i < n + 1 ensures FollowsApproval(t, i) { if i < n { assert FollowsApproval(s, i); } }
    forall i, j | 0 <= i < j < |t.taken| ensures TakenOnce(t, i, j) { assert TakenOnce(s, i, j); }
  }

  lemma GrantedInv(s: State, keys: set<string>, key: string, request: string, todo: seq<Effect>, kind: Kind,
                   origin: Origin)
    requires Inv(s) && key in keys && key !in s.resolved
    ensures Inv(Granted(s, keys, key, request, todo, kind, origin))
  {
    var t := Granted(s, keys, key, request, todo, kind, origin);
    forall i | 0 <= i < |t.tasks| && t.tasks[i].Emitting? ensures IsApproval(t, t.tasks[i].approval) {
      if i < |s.tasks| { assert TaskSound(s, i); }
    }
    EmissionAdded(s, t, Approval(s.bus, key, request, kind));
  }

  lemma ResolveInv(s: State, r: Request, origin: Origin)
    requires Inv(s)
    ensures Inv(ResolveApproved(s, r, origin))
  {
    hide Inv, Granted;
    if s.started && r.key !in s.resolved {
      GrantedInv(s, {r.key}, r.key, r.id, Effects(r.receipt, r.compensation), ByRequest, origin);
    }
  }

  lemma SyntheticInv(s: State, event: string, key: string)
    requires Inv(s)
    ensures Inv(EmitSynthetic(s, event, key))
  {
    hide Inv, Granted;
    if s.started && key !in s.resolved {
      GrantedInv(s, {key}, key, "req_auto_" + event, [], Synthetic, Elsewhere);
    }
  }

  lemma TookInv(s: State, i: nat)
    requires Inv(s) && i !in s.used
    ensures Inv(Took(s, i))
  {
    var t := Took(s, i);
    forall k | s.since <= k < |t.emissions| ensures Marked(t, k) { assert Marked(s, k); }
    forall j, k | s.since <= j < k < |t.emissions| ensures DifferentKeys(t, j, k) { assert DifferentKeys(s, j, k); }
    forall k | 0 <= k < |t.emissions| ensures FollowsApproval(t, k) { assert FollowsApproval(s, k); }
    forall k | 0 <= k < |t.tasks| ensures TaskSound(t, k) { assert TaskSound(s, k); }
    forall j, k | 0 <= j < k < |t.taken| ensures TakenOnce(t, j, k) {
      if k < |s.taken| { assert TakenOnce(s, j, k); }
    }
  }

  lemma CreatedMarked(s: State, key: string)
    requires Inv(s)
    ensures Inv(s.(created := s.created + {key}))
  {
    var t := s.(created := s.created + {key});
    forall k | s.since <= k < |t.emissions| ensures Marked(t, k) { assert Marked(s, k); }
    forall j, k | s.since <= j < k < |t.emissions| ensures DifferentKeys(t, j, k) { assert DifferentKeys(s, j, k); }
    forall k | 0 <= k < |t.emissions| ensures FollowsApproval(t, k) { assert FollowsApproval(s, k); }
    forall k | 0 <= k < |t.tasks| ensures TaskSound(t, k) { assert TaskSound(s, k); }
    forall j, k | 0 <= j < k < |t.taken| ensures TakenOnce(t, j, k) { assert TakenOnce(s, j, k); }
  }

  lemma EventInv(s: State, event: string)
    requires Inv(s)
    ensures Inv(CreateFromEvent(s, event))
  {
    hide Inv, Granted, Chosen;
    var key := s.run + "." + event;
    CreatedMarked(s, key);
    var s1 := s.(created := s.created + {key});
    if s.fixtures != [] {
      var i := Chosen(s1, key);
      if i.Some? {
        TookInv(s1, i.value);
        var s2, row := Took(s1, i.value), s.fixtures[i.value];
        if row.key !in s2.resolved {
          GrantedInv(s2, {key, row.key}, row.key, row.id, Effects(row.receipt, row.compensation), ByFixture, Elsewhere);
        }
      }
    } else {
      TaskAdded(s1, Creating(event, key));
    }
  }

  lemma EmissionInv(s: State, t: Task, ok: bool)
    requires Inv(s) && t.Emitting? && IsApproval(s, t.approval)
    ensures Inv(AfterEmission(s, t, ok))
  {
    if !ok || NoBus(s, t) {
      match t.origin {
        case Elsewhere =>
        case Poller(request, key) => TaskAdded(s, Timer(request, key));
        case Creator(event, key) => SyntheticInv(s, event, key);
      }
    } else if t.todo != [] {
      var u := AfterEmission(s, t, ok);
      var e := u.emissions[|s.emissions|];
      forall i | 0 <= i < |u.tasks| && u.tasks[i].Emitting? ensures IsApproval(u, u.tasks[i].approval) {
        if i < |s.tasks| { assert TaskSound(s, i); }
      }
      EmissionAdded(s, u, e);
    }
  }

  lemma {:induction false} NoTimersSound(s: State, tasks: seq<Task>)
    requires forall i | 0 <= i < |tasks| && tasks[i].Emitting? :: IsApproval(s, tasks[i].approval)
    ensures forall i | 0 <= i < |NoTimers(tasks)| && NoTimers(tasks)[i].Emitting? ::
            IsApproval(s, NoTimers(tasks)[i].approval)
  {
    if tasks != [] {
      NoTimersSound(s, tasks[..|tasks| - 1]);
    }
  }

  lemma StopInv(s: State)
    requires Inv(s)
    ensures Inv(s.(started := false, tasks := NoTimers(s.tasks)))
  {
    forall i | 0 <= i < |s.tasks| && s.tasks[i].Emitting? ensures IsApproval(s, s.tasks[i].approval) {
      assert TaskSound(s, i);
    }
    NoTimersSound(s, s.tasks);
    TasksChange(s, s.(tasks := NoTimers(s.tasks)));
    var m, t := s.(tasks := NoTimers(s.tasks)), s.(started := false, tasks := NoTimers(s.tasks));
    forall k | s.since <= k < |t.emissions| ensures Marked(t, k) { assert Marked(m, k); }
    forall j, k | s.since <= j < k < |t.emissions| ensures DifferentKeys(t, j, k) { assert DifferentKeys(m, j, k); }
    forall k | 0 <= k < |t.emissions| ensures FollowsApproval(t, k) { assert FollowsApproval(m, k); }
    forall k | 0 <= k < |t.tasks| ensures TaskSound(t, k) { assert TaskSound(m, k); }
    forall j, k | 0 <= j < k < |t.taken| ensures TakenOnce(t, j, k) { assert TakenOnce(m, j, k); }
  }

  lemma StartInv(s: State, run: string, auto: bool, fixtures: seq<Row>)
    requires Inv(s)
    ensures Inv(Started(s, run, auto, fixtures))
  {
    var t := Started(s, run, auto, fixtures);
    forall k | 0 <= k < |t.emissions| ensures FollowsApproval(t, k) { assert FollowsApproval(s, k); }
    forall k | 0 <= k < |t.tasks| ensures TaskSound(t, k) { assert TaskSound(s, k); }
  }

  lemma StepInv(s: State, op: Op)
    requires Inv(s) && Enabled(s, op)
    ensures Inv(Step(s, op))
  {
    hide Inv, Granted, ResolveApproved, EmitSynthetic, CreateFromEvent, AfterEmission, Started;
    match op {
      case Start(run, auto, fixtures) => StartInv(s, run, auto, fixtures);
      case Stop => StopInv(s);
      case BusEvent(event) => EventInv(s, event);
      case Webhook(signed, r) => if r.Some? { ResolveInv(s, r.value, Elsewhere); }
      case Created(i, reply, late) =>
        TaskGone(s, i);
        var s1, t := s.(tasks := Without(s.tasks, i)), s.tasks[i];
        SyntheticInv(s1, t.event, t.key);
        if reply.Some? {
          ResolveInv(s1, reply.value.(status := "approved"), Creator(t.event, t.key));
          TaskAdded(s1, Polling(reply.value.id, t.key));
        }
      case Fetched(i, reply) =>
        TaskGone(s, i);
        var s1, t := s.(tasks := Without(s.tasks, i)), s.tasks[i];
        TaskAdded(s1, Timer(t.request, t.key));
        if reply.Some? { ResolveInv(s1, reply.value, Poller(t.request, t.key)); }
      case Tick(i, late) =>
        TaskGone(s, i);
        TaskAdded(s.(tasks := Without(s.tasks, i)), Polling(s.tasks[i].request, s.tasks[i].key));
      case Emitted(i, ok) =>
        TaskGone(s, i);
        TaskIsSound(s, i);
        EmissionInv(s.(tasks := Without(s.tasks, i)), s.tasks[i], ok);
    }
  }

  lemma TaskIsSound(s: State, i: nat)
    requires Inv(s) && i < |s.tasks| && s.tasks[i].Emitting?
    ensures IsApproval(s.(tasks := Without(s.tasks, i)), s.tasks[i].approval)
  {
    assert TaskSound(s, i);
  }

  function Run(ops: seq<Op>): State {
    if ops == [] then INITIAL
    else
      var s := Run(ops[..|ops| - 1]);
      if Enabled(s, ops[|ops| - 1]) then Step(s, ops[|ops| - 1]) else s
  }

  lemma {:induction false} RunInv(ops: seq<Op>)
    ensures Inv(Run(ops))
  {
    hide Inv, Step;
    if ops != [] {
      var s := Run(ops[..|ops| - 1]);
      RunInv(ops[..|ops| - 1]);
      if Enabled(s, ops[|ops| - 1]) { StepInv(s, ops[|ops| - 1]); }
    } else {
      InitialInv();
    }
  }

  lemma InitialInv()
    ensures Inv(INITIAL)
  {}

  /** Over every interleaving of events, replies, timers, webhooks, emissions that fail, and restarts:
      since the last start each payload key has at most one `approval_granted` and each fixture row is
      taken at most once; receipts and compensations come only behind their approval. */
  lemma AtMostOneApproval(ops: seq<Op>)
    ensures var s := Run(ops);
            && s.since <= |s.emissions|
            && (forall i, j | s.since <= i < j < |s.emissions|
                              && s.emissions[i].Approval? && s.emissions[j].Approval? ::
                  s.emissions[i].key != s.emissions[j].key)
            && (forall i, j | 0 <= i < j < |s.taken| :: s.taken[i] != s.taken[j])
            && forall i | 0 <= i < |s.emissions| && !s.emissions[i].Approval? ::
                 s.emissions[i].approval < i && s.emissions[s.emissions[i].approval].Approval?
  {
    RunInv(ops);
    var s := Run(ops);
    forall i, j | s.since <= i < j < |s.emissions| && s.emissions[i].Approval? && s.emissions[j].Approval?
      ensures s.emissions[i].key != s.emissions[j].key
    {
      assert DifferentKeys(s, i, j);
    }
    forall i, j | 0 <= i < j < |s.taken| ensures s.taken[i] != s.taken[j] { assert TakenOnce(s, i, j); }
    forall i | 0 <= i < |s.emissions| && !s.emissions[i].Approval?
      ensures s.emissions[i].approval < i && s.emissions[s.emissions[i].approval].Approval?
    {
      assert FollowsApproval(s, i);
    }
  }

  lemma RunNothing()
    ensures Run([]) == INITIAL
  {}

  lemma RunPush(ops: seq<Op>, op: Op)
    ensures Run(ops + [op]) == var s := Run(ops); if Enabled(s, op) then Step(s, op) else s
  {
    Unsnoc(ops, op);
  }
}
