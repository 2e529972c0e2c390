/** The control-RPC pipeline. */
module Dispatch {
  import opened JsonValues
  import opened Options
  import opened Sequences

  type Tree = Json<string>

  datatype Scope = Scope(permission: string, topics: set<string>, products: set<string>)

  /** `peer` carries the enrolled grant of a peer principal. */
  datatype Principal = Principal(id: string, roles: set<string>, peer: Option<seq<Scope>>)

  datatype Request = Request(id: string, workspace: string, rpc: string, params: Tree)

  datatype MethodSpec = MethodSpec(mutating: bool, receipt: bool, roles: set<string>)

  /** What is injected: the rpc table, digests, and which ports are bound. */
  datatype Config = Config(
    workspace: string,
    methods: string -> Option<MethodSpec>,
    isTopic: string -> bool,
    sha: string -> string,
    digest: (string, Tree) -> Option<string>,  // the hash of the canonical form, or no canonical form
    httpStatus: string -> nat,
    retryable: string -> bool,
    port: ReceiptPort,
    lookup: bool)

  /** The receipt port, which may be able to bind a mutation without an audit record. */
  datatype ReceiptPort = NoPort | Port(binds: bool)

  /** An error may say itself whether a retry makes sense. */
  datatype Refusal = Refusal(code: string, field: Option<string>, retryable: Option<bool>)

  /** What the world answers during one call: parsing, authentication, draining, the service, and
      the one commit the call may make. A commit can be durable and still report failure. */
  datatype Envelope = Rejected(refusal: Refusal) | Parsed(request: Request)
  datatype Auth = Denied(refusal: Refusal) | Granted(principal: Principal)
  datatype Service = Unavailable(code: string) | Threw(refusal: Refusal) | Returned(result: Tree)
  datatype Commit = Committed | Lost | DurableButFailed
  datatype Input = Input(envelope: Envelope, auth: Auth, draining: bool, service: Service, commit: Commit)

  datatype Response =
    | Ok(id: string, result: Tree, receipt: Option<nat>)
    | Err(request: Option<string>, code: string, retryable: bool, field: Option<string>, failReceipt: Option<nat>)

  datatype Outcome = Outcome(status: nat, response: Response, headers: seq<(string, string)>)

  /** An audit record, and the receipt pointer is its place in the audit lane. */
  datatype Action = Action(rpc: string, principal: string, request: string, succeeded: bool, code: string)

  /** A saved answer; a row can be damaged so that it no longer parses. */
  datatype Saved = Saved(status: nat, response: Response) | Damaged

  datatype Row = Row(requestHash: string, saved: Saved)

  /** `<workspace>:<principal id>` and the request id. */
  datatype Key = Key(principal: string, id: string)

  /** The operations table and the audit lane; `runs` lists every service run. */
  datatype State = State(rows: map<Key, Row>, audit: seq<Action>, runs: seq<(Key, string)>)

  const NO_RECEIPT_METHODS: set<string> :=
    {"daemon.hello", "run.heartbeat", "events.ack", "agent.challenge", "agent.renew", "ui.session.exchange"}

  const TOKEN_BEARING_METHODS: set<string> :=
    {"agent.register", "agent.renew", "agent.pair.create", "agent.pair.propose", "agent.pair.get", "agent.challenge",
     "ui.session.create", "ui.session.exchange"}

  // ---------- the semantic binding of a mutation ----------

  const PAIRING_KEYS: seq<string> := ["pair", "key", "profiles", "interfaces", "capabilities"]
  const RENEW_KEYS: seq<string> := ["peer", "refresh_hash"]

  /** The authentication methods bind only part of their params. */
  function ExemptKeys(rpc: string): Option<seq<string>> {
    if rpc == "agent.register" || rpc == "agent.pair.propose" then Some(PAIRING_KEYS)
    else if rpc == "agent.renew" then Some(RENEW_KEYS)
    else None
  }

  function Members(params: Tree): seq<Member<string>> { if params.Object? then params.members else [] }

  /** One bound member; the refresh token is bound by its hash. */
  function BoundValue(sha: string -> string, src: seq<Member<string>>, key: string): Tree {
    if key == "refresh_hash" then
      match Get(src, "refresh") case Some(Str(s)) => Str(sha(s)) case _ => Null
    else
      match Get(src, key) case Some(v) => v case None => Null
  }

  function BindingParams(sha: string -> string, rpc: string, params: Tree): Tree {
    match ExemptKeys(rpc)
    case None => params
    case Some(keys) =>
      Object(seq(|keys|, i requires 0 <= i < |keys| => Member(keys[i], BoundValue(sha, Members(params), keys[i]))))
  }

  predicate SameBound(sha: string -> string, a: Tree, b: Tree, key: string) {
    BoundValue(sha, Members(a), key) == BoundValue(sha, Members(b), key)
  }

  /** Two requests bind alike exactly when the bound members agree: a retry may prove possession
      afresh, but not change what is asked for. */
  lemma BindingDependsOn(sha: string -> string, rpc: string, a: Tree, b: Tree)
    ensures var keys := ExemptKeys(rpc);
            BindingParams(sha, rpc, a) == BindingParams(sha, rpc, b)
            <==> if keys.None? then a == b
                 else forall i | 0 <= i < |keys.value| :: SameBound(sha, a, b, keys.value[i])
  {
    hide BoundValue;
    if ExemptKeys(rpc).Some? {
      var keys := ExemptKeys(rpc).value;
      var x, y := BindingParams(sha, rpc, a).members, BindingParams(sha, rpc, b).members;
      assert |x| == |y| == |keys|;
      if x == y {
        forall i | 0 <= i < |keys| ensures SameBound(sha, a, b, keys[i]) { assert x[i] == y[i]; }
      }
      if forall i | 0 <= i < |keys| :: SameBound(sha, a, b, keys[i]) {
        forall i | 0 <= i < |keys| ensures x[i] == y[i] { assert SameBound(sha, a, b, keys[i]); }
        assert x == y;
      }
    }
  }

  /** What the params give for a name; Null when they give nothing. */
  function Given(params: Tree, name: string): Tree {
    match Get(Members(params), name) case Some(v) => v case None => Null
  }

  /** A registration or pairing proposal binds the pair, the key, the profiles, the interfaces and the capabilities,
      and nothing else. */
  lemma PairingBinds(sha: string -> string, rpc: string, a: Tree, b: Tree)
    requires rpc == "agent.register" || rpc == "agent.pair.propose"
    ensures BindingParams(sha, rpc, a) == BindingParams(sha, rpc, b) <==>
              forall name | name in {"pair", "key", "profiles", "interfaces", "capabilities"} ::
                Given(a, name) == Given(b, name)
  {
    hide Get, BindingParams;
    BindingDependsOn(sha, rpc, a, b);
    var keys := PAIRING_KEYS;
    assert keys[0] == "pair" && keys[1] == "key" && keys[2] == "profiles" && keys[3] == "interfaces"
           && keys[4] == "capabilities" && |keys| == 5;
    assert "refresh_hash"[0] == 'r';
    forall i | 0 <= i < 5 ensures SameBound(sha, a, b, keys[i]) <==> Given(a, keys[i]) == Given(b, keys[i]) {
      assert keys[i][0] != 'r';
    }
  }

  /** Of the exempt methods only `agent.renew` looks at the refresh token, and only at its hash. */
  lemma RenewBindsTokenHash(sha: string -> string, a: Tree, b: Tree, peer: Tree, x: string, y: string)
    requires Get(Members(a), "peer") == Some(peer) && Get(Members(b), "peer") == Some(peer)
    requires Get(Members(a), "refresh") == Some(Str(x)) && Get(Members(b), "refresh") == Some(Str(y))
    ensures BindingParams(sha, "agent.renew", a) == BindingParams(sha, "agent.renew", b) <==> sha(x) == sha(y)
  {
    BindingDependsOn(sha, "agent.renew", a, b);
    assert RENEW_KEYS[0] == "peer" && RENEW_KEYS[1] == "refresh_hash";
    assert "peer"[0] != "refresh_hash"[0];
    assert SameBound(sha, a, b, RENEW_KEYS[0]);
    assert SameBound(sha, a, b, RENEW_KEYS[1]) <==> sha(x) == sha(y);
  }

  function BindingHash(cfg: Config, rpc: string, params: Tree): Option<string> {
    cfg.digest(rpc, BindingParams(cfg.sha, rpc, params))
  }

  // ---------- the peer scope gate ----------

  function TextOf(params: Tree, name: string): Option<string> {
    match Get(Members(params), name) case Some(Str(s)) => Some(s) case _ => None
  }

  predicate HasScope(scopes: seq<Scope>, permission: string) {
    exists s | s in scopes :: s.permission == permission
  }

  predicate HasTopic(scopes: seq<Scope>, permission: string, topic: string) {
    exists s | s in scopes :: s.permission == permission && topic in s.topics
  }

  predicate ManagesProducts(scopes: seq<Scope>, slug: Option<string>) {
    exists s | s in scopes :: s.permission == "products.manage" && (slug.None? || slug.value in s.products)
  }

  const PRODUCT_METHODS: set<string> :=
    {"product.plan", "product.install", "product.uninstall", "product.update", "product.rollback", "product.health"}

  predicate TopicAllowed(isTopic: string -> bool, scopes: seq<Scope>, t: Tree) {
    t.Str? && isTopic(t.s) && HasTopic(scopes, "events.consume", t.s)
  }

  predicate PeerScopeAllows(isTopic: string -> bool, scopes: seq<Scope>, rpc: string, params: Tree) {
    if rpc == "events.publish" then
      var topic := TextOf(params, "topic");
      topic.Some? && isTopic(topic.value) && HasTopic(scopes, "events.emit", topic.value)
    else if rpc == "events.query" || rpc == "events.subscribe" then
      match Get(Members(params), "topics")
      case Some(Array(list)) => forall t | t in list :: TopicAllowed(isTopic, scopes, t)
      case _ => false
    else if rpc == "events.ack" then HasScope(scopes, "events.consume")
    else if rpc == "approval.request" || rpc == "approval.cancel" then HasScope(scopes, "approvals.request")
    else if rpc == "lineage.query" then HasScope(scopes, "lineage.read")
    else if rpc in PRODUCT_METHODS then ManagesProducts(scopes, TextOf(params, "slug"))
    else true
  }

  // ---------- the pipeline ----------

  function Plain(code: string, field: Option<string>): Refusal { Refusal(code, field, None) }

  function Fail(cfg: Config, id: Option<string>, r: Refusal, receipt: Option<nat>): Outcome {
    var retryable := if r.retryable.Some? then r.retryable.value else cfg.retryable(r.code);
    Outcome(cfg.httpStatus(r.code), Err(id, r.code, retryable, r.field, receipt),
            if retryable then [("Retry-After", "1")] else [])
  }

  /** Admission, in order of precedence: envelope, rpc, authentication, workspace, role, draining,
      peer scope. */
  function Admission(cfg: Config, input: Input): Option<Refusal> {
    match input.envelope
    case Rejected(r) => Some(r)
    case Parsed(q) =>
      match cfg.methods(q.rpc)
      case None => Some(Plain("METHOD_UNKNOWN", None))
      case Some(spec) =>
        match input.auth
        case Denied(r) => Some(r)
        case Granted(p) =>
          if q.workspace != cfg.workspace then Some(Plain("FORBIDDEN", Some("workspace")))
          else if spec.roles !! p.roles then Some(Plain("FORBIDDEN", Some("method")))
          else if spec.mutating && input.draining then Some(Plain("STATE_TRANSITION", None))
          else if p.peer.Some? && !PeerScopeAllows(cfg.isTopic, p.peer.value, q.rpc, q.params) then
            Some(Plain("FORBIDDEN", Some("params")))
          else None
  }

  predicate Admitted(cfg: Config, input: Input) {
    && Admission(cfg, input).None? && input.envelope.Parsed? && input.auth.Granted?
    && cfg.methods(input.envelope.request.rpc).Some?
  }

  function Mutating(cfg: Config, input: Input): bool
    requires Admitted(cfg, input)
  {
    cfg.methods(input.envelope.request.rpc).value.mutating
  }

  function KeyOf(input: Input): Key
    requires input.envelope.Parsed? && input.auth.Granted?
  {
    Key(input.envelope.request.workspace + ":" + input.auth.principal.id, input.envelope.request.id)
  }

  function HashOf(cfg: Config, input: Input): Option<string>
    requires input.envelope.Parsed?
  {
    BindingHash(cfg, input.envelope.request.rpc, input.envelope.request.params)
  }

  predicate NeedsReceipt(cfg: Config, rpc: string) {
    cfg.methods(rpc).Some? && cfg.methods(rpc).value.receipt && rpc !in NO_RECEIPT_METHODS
  }

  /** The ports write something for a successful mutation by this rpc before it is answered. */
  predicate Recorded(cfg: Config, rpc: string) { cfg.port.Port? && (NeedsReceipt(cfg, rpc) || cfg.port.binds) }

  /** Is a successful mutation by this rpc recorded so that a retry finds it? */
  predicate Guarded(cfg: Config, rpc: string) {
    cfg.lookup && Recorded(cfg, rpc)
  }

  function Headers(rpc: string): seq<(string, string)> {
    if rpc in TOKEN_BEARING_METHODS then [("Cache-Control", "no-store")] else []
  }

  /** The answer to a mutation whose key is already bound. */
  function Replay(cfg: Config, id: string, row: Row, hash: string): Outcome {
    if row.requestHash == hash && row.saved.Saved? then Outcome(row.saved.status, row.saved.response, [])
    else Fail(cfg, Some(id), Plain("IDEMPOTENCY_CONFLICT", None), None)
  }

  function ActionOf(input: Input, succeeded: bool, code: string): Action
    requires input.envelope.Parsed? && input.auth.Granted?
  {
    Action(input.envelope.request.rpc, input.auth.principal.id, input.envelope.request.id, succeeded, code)
  }

  /** The service failed: one FAILED record if receipts are written, and the error either way. */
  function ServiceFailed(cfg: Config, s: State, input: Input, r: Refusal): (Outcome, State)
    requires Admitted(cfg, input)
  {
    var q := input.envelope.request;
    var sink := NeedsReceipt(cfg, q.rpc) && cfg.port.Port?;
    var receipt := if sink && input.commit.Committed? then Some(|s.audit|) else None;
    (Fail(cfg, Some(q.id), r, receipt),
     if sink && !input.commit.Lost? then s.(audit := s.audit + [ActionOf(input, false, r.code)]) else s)
  }

  /** The service returned: the record and the row are durable before the answer is sent. */
  function ServiceReturned(cfg: Config, s: State, input: Input, result: Tree, hash: Option<string>): (Outcome, State)
    requires Admitted(cfg, input)
  {
    var q := input.envelope.request;
    var failed := Fail(cfg, Some(q.id), Plain("STORAGE_UNAVAILABLE", None), None);
    if NeedsReceipt(cfg, q.rpc) && cfg.port.Port? then
      var response := Ok(q.id, result, Some(|s.audit|));
      var rows := if hash.Some? then s.rows[KeyOf(input) := Row(hash.value, Saved(200, response))] else s.rows;
      (if input.commit.Committed? then Outcome(200, response, Headers(q.rpc)) else failed,
       if input.commit.Lost? then s else s.(rows := rows, audit := s.audit + [ActionOf(input, true, "OK")]))
    else
      var response := Ok(q.id, result, None);
      // Without a port, or with one that cannot bind, the mutation stays unbound.
      if hash.Some? && cfg.port.Port? && cfg.port.binds then
        (if input.commit.Committed? then Outcome(200, response, Headers(q.rpc)) else failed,
         if input.commit.Lost? then s
         else s.(rows := s.rows[KeyOf(input) := Row(hash.value, Saved(200, response))]))
      else
        (Outcome(200, response, Headers(q.rpc)), s)
  }

  /** From the service to the answer; `hash` is the binding of a mutation. */
  function Executed(cfg: Config, s: State, input: Input, hash: Option<string>): (Outcome, State)
    requires Admitted(cfg, input)
  {
    var q := input.envelope.request;
    match input.service
    case Unavailable(code) => ServiceFailed(cfg, s, input, Plain(code, None))
    case Threw(r) => ServiceFailed(cfg, s.(runs := s.runs + [(KeyOf(input), q.rpc)]), input, r)
    case Returned(v) => ServiceReturned(cfg, s.(runs := s.runs + [(KeyOf(input), q.rpc)]), input, v, hash)
  }

  function Dispatched(cfg: Config, s: State, input: Input): (Outcome, State) {
    var refusal := Admission(cfg, input);
    if refusal.Some? then
      (Fail(cfg, if input.envelope.Parsed? then Some(input.envelope.request.id) else None, refusal.value, None), s)
    else if !Mutating(cfg, input) then Executed(cfg, s, input, None)
    else
      var q, hash := input.envelope.request, HashOf(cfg, input);
      if hash.None? then (Fail(cfg, Some(q.id), Plain("SCHEMA_INVALID", Some("params")), None), s)
      else if cfg.lookup && KeyOf(input) in s.rows then (Replay(cfg, q.id, s.rows[KeyOf(input)], hash.value), s)
      else Executed(cfg, s, input, hash)
  }

  // ---------- the dispatcher object ----------

  class Dispatcher {
    const cfg: Config
    var rows: map<Key, Row>
    var audit: seq<Action>
    ghost var runs: seq<(Key, string)>

    constructor (cfg: Config)
      ensures this.cfg == cfg && Now() == State(map[], [], [])
    {
      this.cfg := cfg;
      rows, audit, runs := map[], [], [];
    }

    ghost function Now(): State
      reads this
    {
      State(rows, audit, runs)
    }

    /** One call, from the parsed body to the answer. */
    method Run(input: Input) returns (r: Outcome)
      modifies this
      ensures (r, Now()) == Dispatched(cfg, old(Now()), input)
    {
      hide PeerScopeAllows, BindingHash, NeedsReceipt, Headers;
      match input.envelope {
        case Rejected(refusal) => return Fail(cfg, None, refusal, None);
        case Parsed(q) =>
          var spec := cfg.methods(q.rpc);
          if spec.None? { return Fail(cfg, Some(q.id), Plain("METHOD_UNKNOWN", None), None); }
          if input.auth.Denied? { return Fail(cfg, Some(q.id), input.auth.refusal, None); }
          var p := input.auth.principal;
          if q.workspace != cfg.workspace {
            return Fail(cfg, Some(q.id), Plain("FORBIDDEN", Some("workspace")), None);
          }
          if spec.value.roles !! p.roles { return Fail(cfg, Some(q.id), Plain("FORBIDDEN", Some("method")), None); }
          if spec.value.mutating && input.draining {
            return Fail(cfg, Some(q.id), Plain("STATE_TRANSITION", None), None);
          }
          if p.peer.Some? && !PeerScopeAllows(cfg.isTopic, p.peer.value, q.rpc, q.params) {
            return Fail(cfg, Some(q.id), Plain("FORBIDDEN", Some("params")), None);
          }
          var hash: Option<string> := None;
          if spec.value.mutating {
            hash := BindingHash(cfg, q.rpc, q.params);
            if hash.None? { return Fail(cfg, Some(q.id), Plain("SCHEMA_INVALID", Some("params")), None); }
            if cfg.lookup && KeyOf(input) in rows {
              return Replay(cfg, q.id, rows[KeyOf(input)], hash.value);
            }
          }
          r := Execute(input, hash);
      }
    }

    /** Runs the service once, then makes its record and its binding durable. */
    method Execute(input: Input, hash: Option<string>) returns (r: Outcome)
      requires Admitted(cfg, input)
      modifies this
      ensures (r, Now()) == Executed(cfg, old(Now()), input, hash)
    {
      hide Admission, NeedsReceipt, Headers, Fail;
      var q := input.envelope.request;
      var sink := NeedsReceipt(cfg, q.rpc) && cfg.port.Port?;
      if !input.service.Unavailable? { runs := runs + [(KeyOf(input), q.rpc)]; }
      if !input.service.Returned? {
        var refusal := if input.service.Unavailable? then Plain(input.service.code, None) else input.service.refusal;
        var receipt: Option<nat> := None;
        if sink {
          var place := |audit|;
          if !input.commit.Lost? { audit := audit + [ActionOf(input, false, refusal.code)]; }
          if input.commit.Committed? { receipt := Some(place); }
        }
        return Fail(cfg, Some(q.id), refusal, receipt);
      }
      var response := Ok(q.id, input.service.result, if sink then Some(|audit|) else None);
      if sink {
        if !input.commit.Lost? {
          audit := audit + [ActionOf(input, true, "OK")];
          if hash.Some? { rows := rows[KeyOf(input) := Row(hash.value, Saved(200, response))]; }
        }
        if !input.commit.Committed? { return Fail(cfg, Some(q.id), Plain("STORAGE_UNAVAILABLE", None), None); }
      } else if hash.Some? && cfg.port.Port? && cfg.port.binds {
        if !input.commit.Lost? { rows := rows[KeyOf(input) := Row(hash.value, Saved(200, response))]; }
        if !input.commit.Committed? { return Fail(cfg, Some(q.id), Plain("STORAGE_UNAVAILABLE", None), None); }
      }
      return Outcome(200, response, Headers(q.rpc));
    }
  }

  // ---------- one call ----------

  /** A call leaves the audit lane as it was or with one more record, the table as it was or with one
      row more, and runs the service at most once; refusals and replays change nothing. */
  lemma OneCall(cfg: Config, s: State, input: Input)
    ensures var (o, t) := Dispatched(cfg, s, input);
            && s.audit <= t.audit && |t.audit| <= |s.audit| + 1
            && s.runs <= t.runs && |t.runs| <= |s.runs| + 1
            && (!Admitted(cfg, input) ==> t == s && o.response.Err?)
            && (Admitted(cfg, input) && Mutating(cfg, input) && cfg.lookup && KeyOf(input) in s.rows ==> t == s)
  {
    hide PeerScopeAllows, BindingHash, NeedsReceipt, Headers;
  }

  /** Whether a call gets as far as the service: a known method, an authenticated principal of this workspace with
      one of the method's roles, no mutation while draining, a peer within its grant, and a mutation that can be
      bound and is not on record. */
  ghost predicate ReachesService(cfg: Config, s: State, input: Input) {
    && input.envelope.Parsed? && input.auth.Granted?
    && var q, p := input.envelope.request, input.auth.principal;
       && cfg.methods(q.rpc).Some? && q.workspace == cfg.workspace
       && (exists r :: r in cfg.methods(q.rpc).value.roles && r in p.roles)
       && !(cfg.methods(q.rpc).value.mutating && input.draining)
       && (p.peer.Some? ==> PeerScopeAllows(cfg.isTopic, p.peer.value, q.rpc, q.params))
       && (cfg.methods(q.rpc).value.mutating ==>
             HashOf(cfg, input).Some? && !(cfg.lookup && KeyOf(input) in s.rows))
  }

  lemma RolesMeet(a: set<string>, b: set<string>)
    ensures !(a !! b) <==> exists r :: r in a && r in b
  {
    if !exists r :: r in a && r in b { assert a * b == {}; }
  }

  /** A service runs exactly for the calls that reach it and find it available, once, under the call's own key. */
  lemma ServiceRunsIff(cfg: Config, s: State, input: Input)
    ensures var t := Dispatched(cfg, s, input).1;
            if ReachesService(cfg, s, input) && !input.service.Unavailable?
            then t.runs == s.runs + [(KeyOf(input), input.envelope.request.rpc)]
            else t.runs == s.runs
  {
    hide PeerScopeAllows, BindingHash, NeedsReceipt, Headers, Fail;
    if input.envelope.Parsed? && input.auth.Granted? && cfg.methods(input.envelope.request.rpc).Some? {
      var spec, p := cfg.methods(input.envelope.request.rpc).value, input.auth.principal;
      RolesMeet(spec.roles, p.roles);
    }
  }

  predicate Refused(o: Outcome, request: Option<string>, code: string, field: Option<string>) {
    && o.response.Err? && o.response.request == request && o.response.code == code && o.response.field == field
    && o.response.failReceipt.None?
  }

  /** A call that does not reach the service, and is no replay, is refused for the first thing that is wrong. */
  lemma RefusalIsAnswered(cfg: Config, s: State, input: Input)
    requires !ReachesService(cfg, s, input)
    ensures var o := Dispatched(cfg, s, input).0;
            if input.envelope.Rejected? then Refused(o, None, input.envelope.refusal.code, input.envelope.refusal.field)
            else
              var q := input.envelope.request;
              var id := Some(q.id);
              if cfg.methods(q.rpc).None? then Refused(o, id, "METHOD_UNKNOWN", None)
              else if input.auth.Denied? then Refused(o, id, input.auth.refusal.code, input.auth.refusal.field)
              else
                var spec, p := cfg.methods(q.rpc).value, input.auth.principal;
                if q.workspace != cfg.workspace then Refused(o, id, "FORBIDDEN", Some("workspace"))
                else if !exists r :: r in spec.roles && r in p.roles then Refused(o, id, "FORBIDDEN", Some("method"))
                else if spec.mutating && input.draining then Refused(o, id, "STATE_TRANSITION", None)
                else if p.peer.Some? && !PeerScopeAllows(cfg.isTopic, p.peer.value, q.rpc, q.params) then
                  Refused(o, id, "FORBIDDEN", Some("params"))
                else if HashOf(cfg, input).None? then Refused(o, id, "SCHEMA_INVALID", Some("params"))
                else
                  && spec.mutating && cfg.lookup && KeyOf(input) in s.rows
                  && (s.rows[KeyOf(input)].requestHash != HashOf(cfg, input).value ==>
                        Refused(o, id, "IDEMPOTENCY_CONFLICT", None))
  {
    hide PeerScopeAllows, BindingHash, NeedsReceipt, Headers;
    if input.envelope.Parsed? && input.auth.Granted? && cfg.methods(input.envelope.request.rpc).Some? {
      RolesMeet(cfg.methods(input.envelope.request.rpc).value.roles, input.auth.principal.roles);
    }
  }

  /** What the service says is what is answered: its result with status 200 when it returned and what had to be
      recorded was committed, STORAGE_UNAVAILABLE when it was not, and its own error otherwise. */
  lemma ServiceIsAnswered(cfg: Config, s: State, input: Input)
    requires ReachesService(cfg, s, input)
    ensures var q, p := input.envelope.request, input.auth.principal;
            var (o, t) := Dispatched(cfg, s, input);
            var sink := cfg.port.Port? && NeedsReceipt(cfg, q.rpc);
            var recorded := if cfg.methods(q.rpc).value.mutating then Recorded(cfg, q.rpc)
                            else sink;
            match input.service
            case Returned(v) =>
              if recorded ==> input.commit.Committed? then
                && o.status == 200 && o.response.Ok? && o.response.id == q.id && o.response.result == v
                && (o.headers == if q.rpc in {"agent.register", "agent.renew", "agent.pair.create",
                                              "agent.pair.propose", "agent.pair.get", "agent.challenge",
                                              "ui.session.create", "ui.session.exchange"}
                                 then [("Cache-Control", "no-store")] else [])
              else
                Refused(o, Some(q.id), "STORAGE_UNAVAILABLE", None)
            case Threw(r) =>
              && o.response.Err? && o.response.request == Some(q.id)
              && (o.response.failReceipt == if sink && input.commit.Committed? then Some(|s.audit|) else None)
              && o.response.code == r.code && o.response.field == r.field && o.status == cfg.httpStatus(r.code)
              && t.audit == s.audit + if sink && !input.commit.Lost?
                                      then [Action(q.rpc, p.id, q.id, false, r.code)] else []
            case Unavailable(code) =>
              && o.response.Err? && o.response.request == Some(q.id) && o.response.field.None?
              && (o.response.failReceipt == if sink && input.commit.Committed? then Some(|s.audit|) else None)
              && o.response.code == code && o.status == cfg.httpStatus(code)
              && t.audit == s.audit + if sink && !input.commit.Lost?
                                      then [Action(q.rpc, p.id, q.id, false, code)] else []
  {
    hide PeerScopeAllows, BindingHash, NeedsReceipt;
    var spec, p := cfg.methods(input.envelope.request.rpc).value, input.auth.principal;
    var r :| r in spec.roles && r in p.roles;
  }

  /** Which methods bear receipts: all that are declared to, but six. */
  lemma ReceiptBearing(cfg: Config, rpc: string)
    ensures NeedsReceipt(cfg, rpc) <==>
              && cfg.methods(rpc).Some? && cfg.methods(rpc).value.receipt
              && rpc != "daemon.hello" && rpc != "run.heartbeat" && rpc != "events.ack"
              && rpc != "agent.challenge" && rpc != "agent.renew" && rpc != "ui.session.exchange"
  {}

  /** A receipt-bearing answer follows its record, and its receipt is the record of this very call. */
  lemma FreshReceiptIsCommitted(cfg: Config, s: State, input: Input)
    requires Admitted(cfg, input) && Dispatched(cfg, s, input).0.response.Ok?
    requires !(Mutating(cfg, input) && cfg.lookup && KeyOf(input) in s.rows)
    ensures var (o, t) := Dispatched(cfg, s, input);
            && (NeedsReceipt(cfg, input.envelope.request.rpc) && cfg.port.Port? ==>
                  && o.response.receipt == Some(|s.audit|)
                  && var q, p := input.envelope.request, input.auth.principal;
                     t.audit == s.audit + [Action(q.rpc, p.id, q.id, true, "OK")])
            && (o.response.receipt.Some? ==> NeedsReceipt(cfg, input.envelope.request.rpc) && cfg.port.Port?)
  {
    hide PeerScopeAllows, BindingHash, NeedsReceipt, Headers;
  }

  // ---------- every run of calls, one at a time ----------

  datatype Event = Call(input: Input) | Damage(key: Key)

  function Next(cfg: Config, s: State, e: Event): State {
    match e
    case Call(input) => Dispatched(cfg, s, input).1
    case Damage(key) => if key in s.rows then s.(rows := s.rows[key := s.rows[key].(saved := Damaged)]) else s
  }

  function RunAll(cfg: Config, s: State, events: seq<Event>): State {
    if events == [] then s else Next(cfg, RunAll(cfg, s, events[..|events| - 1]), events[|events| - 1])
  }

  /** A bound key stays bound to the same request, with the same answer unless that is damaged. */
  predicate StillBound(s: State, key: Key, row: Row) {
    && key in s.rows && s.rows[key].requestHash == row.requestHash
    && (s.rows[key].saved == row.saved || s.rows[key].saved == Damaged)
  }

  lemma CallKeepsRows(cfg: Config, s: State, input: Input, key: Key, row: Row)
    requires cfg.lookup && StillBound(s, key, row)
    ensures StillBound(Dispatched(cfg, s, input).1, key, row)
  {
    hide PeerScopeAllows, BindingHash, NeedsReceipt, Headers, Fail, Replay;
    if Admitted(cfg, input) && Mutating(cfg, input) && KeyOf(input) == key {
      OneCall(cfg, s, input);
    }
  }

  lemma {:induction false} RunKeepsRows(cfg: Config, s: State, events: seq<Event>, key: Key, row: Row)
    requires cfg.lookup && StillBound(s, key, row)
    ensures StillBound(RunAll(cfg, s, events), key, row)
  {
    if events != [] {
      var front := events[..|events| - 1];
      RunKeepsRows(cfg, s, front, key, row);
      if events[|events| - 1].Call? {
        CallKeepsRows(cfg, RunAll(cfg, s, front), events[|events| - 1].input, key, row);
      }
    }
  }

  /** An OK answer to a guarded mutation is on record when it is sent. */
  lemma OkIsBound(cfg: Config, s: State, input: Input)
    requires Admitted(cfg, input) && Mutating(cfg, input) && Guarded(cfg, input.envelope.request.rpc)
    requires Dispatched(cfg, s, input).0.response.Ok?
    ensures var (o, t) := Dispatched(cfg, s, input);
            && HashOf(cfg, input).Some?
            && StillBound(t, KeyOf(input), Row(HashOf(cfg, input).value, Saved(o.status, o.response)))
            && t.rows[KeyOf(input)].saved.Saved?
  {
    hide PeerScopeAllows, BindingHash, NeedsReceipt, Headers;
  }

  /** After the first OK answer to a mutation under a key, whatever calls follow, no later admitted
      mutation under that key runs the service or writes a record: the same request is answered with
      the saved status and body and no headers, another with IDEMPOTENCY_CONFLICT. */
  lemma FirstOkDecides(cfg: Config, s: State, first: Input, between: seq<Event>, again: Input)
    requires Admitted(cfg, first) && Mutating(cfg, first) && Guarded(cfg, first.envelope.request.rpc)
    requires Admitted(cfg, again) && Mutating(cfg, again) && KeyOf(again) == KeyOf(first)
    requires Dispatched(cfg, s, first).0.response.Ok?
    ensures var (o1, s1) := Dispatched(cfg, s, first);
            var s2 := RunAll(cfg, s1, between);
            var (o2, s3) := Dispatched(cfg, s2, again);
            && s3 == s2 && KeyOf(again) in s2.rows
            && (HashOf(cfg, again) == HashOf(cfg, first) && s2.rows[KeyOf(again)].saved.Saved? ==>
                  o2 == Outcome(o1.status, o1.response, []))
            && (HashOf(cfg, again) == HashOf(cfg, first) && s2.rows[KeyOf(again)].saved.Damaged? ==>
                  o2.response.Err? && o2.response.code == "IDEMPOTENCY_CONFLICT")
            && (HashOf(cfg, again) != HashOf(cfg, first) && HashOf(cfg, again).Some? ==>
                  o2.response.Err? && o2.response.code == "IDEMPOTENCY_CONFLICT")
  {
    hide PeerScopeAllows, BindingHash, NeedsReceipt, Headers;
    var (o1, s1) := Dispatched(cfg, s, first);
    OkIsBound(cfg, s, first);
    RunKeepsRows(cfg, s1, between, KeyOf(first), Row(HashOf(cfg, first).value, Saved(o1.status, o1.response)));
  }

  /** The guard is exact: after a mutation under a new key has run its service, the identical retry runs it
      again precisely when the service threw, the ports do not record the method or look it up, or the commit
      was lost. The first answer is OK precisely when the service returned and nothing had to be recorded or
      the commit reported success. */
  lemma RetryRunsAgainIff(cfg: Config, s: State, input: Input)
    requires Admitted(cfg, input) && Mutating(cfg, input) && KeyOf(input) !in s.rows && HashOf(cfg, input).Some?
    requires !input.service.Unavailable?
    ensures var rpc := input.envelope.request.rpc;
            var (o1, s1) := Dispatched(cfg, s, input);
            var s2 := Dispatched(cfg, s1, input).1;
            && |s1.runs| == |s.runs| + 1
            && (o1.response.Ok? <==> input.service.Returned? && (Recorded(cfg, rpc) ==> input.commit.Committed?))
            && (|s2.runs| == |s1.runs| + 1 <==> input.service.Threw? || !Guarded(cfg, rpc) || input.commit.Lost?)
  {
    hide PeerScopeAllows, BindingHash, NeedsReceipt, Headers, Replay, Admission;
  }

  /** The record a saved or sent receipt points at. */
  predicate SealedFor(cfg: Config, audit: seq<Action>, key: Key, n: nat) {
    && n < |audit| && audit[n].succeeded && audit[n].request == key.id
    && key.principal == cfg.workspace + ":" + audit[n].principal
  }

  predicate RowSealed(cfg: Config, s: State, key: Key)
    requires key in s.rows
  {
    var saved := s.rows[key].saved;
    saved.Saved? && saved.response.Ok? && saved.response.receipt.Some? ==>
      SealedFor(cfg, s.audit, key, saved.response.receipt.value)
  }

  ghost predicate RowsSealed(cfg: Config, s: State) { forall key | key in s.rows :: RowSealed(cfg, s, key) }

  lemma CallSeals(cfg: Config, s: State, input: Input)
    requires RowsSealed(cfg, s)
    ensures var (o, t) := Dispatched(cfg, s, input);
            && RowsSealed(cfg, t)
            && (o.response.Ok? && o.response.receipt.Some? ==>
                  && input.envelope.Parsed? && input.auth.Granted?
                  && SealedFor(cfg, t.audit, KeyOf(input), o.response.receipt.value))
  {
    hide PeerScopeAllows, BindingHash, NeedsReceipt, Headers;
    var t := Dispatched(cfg, s, input).1;
    OneCall(cfg, s, input);
    forall key | key in t.rows ensures RowSealed(cfg, t, key) {
      if key in s.rows && t.rows[key] == s.rows[key] { assert RowSealed(cfg, s, key); }
    }
    if input.envelope.Parsed? && input.auth.Granted? && KeyOf(input) in s.rows {
      assert RowSealed(cfg, s, KeyOf(input));
    }
  }

  lemma {:induction false} RunSeals(cfg: Config, events: seq<Event>)
    ensures RowsSealed(cfg, RunAll(cfg, State(map[], [], []), events))
  {
    if events != [] {
      var front, e := events[..|events| - 1], events[|events| - 1];
      RunSeals(cfg, front);
      var s := RunAll(cfg, State(map[], [], []), front);
      if e.Call? {
        CallSeals(cfg, s, e.input);
      } else {
        forall key | key in Next(cfg, s, e).rows ensures RowSealed(cfg, Next(cfg, s, e), key) {
          assert RowSealed(cfg, s, key);
        }
      }
    }
  }

  /** In every run, a receipt sent with an OK answer, fresh or replayed, points at a committed SUCCEEDED
      record of the same principal and request id. */
  lemma ReceiptsAreSealed(cfg: Config, events: seq<Event>, input: Input)
    ensures var s := RunAll(cfg, State(map[], [], []), events);
            var (o, t) := Dispatched(cfg, s, input);
            o.response.Ok? && o.response.receipt.Some? ==>
              && input.envelope.Parsed? && input.auth.Granted?
              && SealedFor(cfg, t.audit, KeyOf(input), o.response.receipt.value)
  {
    RunSeals(cfg, events);
    CallSeals(cfg, RunAll(cfg, State(map[], [], []), events), input);
  }

  // ---------- what a replay carries ----------

  /** Call j ran its service, and the row of its key holds the answer with that result. */
  ghost predicate BoundBy(cfg: Config, events: seq<Event>, key: Key, row: Row, j: nat) {
    && j < |events| && events[j].Call?
    && var input, s := events[j].input, RunAll(cfg, State(map[], [], []), events[..j]);
       && ReachesService(cfg, s, input) && KeyOf(input) == key && HashOf(cfg, input) == Some(row.requestHash)
       && input.service.Returned?
       && (row.saved.Saved? ==>
             && row.saved.status == 200 && row.saved.response.Ok? && row.saved.response.id == key.id
             && input.service.result == row.saved.response.result)
  }

  ghost predicate Bound(cfg: Config, events: seq<Event>, key: Key, row: Row) {
    exists j: nat :: BoundBy(cfg, events, key, row, j)
  }

  lemma BoundLater(cfg: Config, events: seq<Event>, e: Event, key: Key, row: Row, row': Row)
    requires Bound(cfg, events, key, row) && row' in {row, row.(saved := Damaged)}
    ensures Bound(cfg, events + [e], key, row')
  {
    var j: nat :| BoundBy(cfg, events, key, row, j);
    assert (events + [e])[..j] == events[..j];
    assert BoundBy(cfg, events + [e], key, row', j);
  }

  /** One call changes at most the row of its own key, to the answer with its service's result. */
  lemma CallBinds(cfg: Config, s: State, input: Input, key: Key)
    requires key in Dispatched(cfg, s, input).1.rows
    ensures var row := Dispatched(cfg, s, input).1.rows[key];
            || (key in s.rows && s.rows[key] == row)
            || (ReachesService(cfg, s, input) && KeyOf(input) == key && HashOf(cfg, input) == Some(row.requestHash)
                && input.service.Returned? && row.saved.Saved? && row.saved.status == 200 && row.saved.response.Ok?
                && row.saved.response.id == key.id && row.saved.response.result == input.service.result)
  {
    hide PeerScopeAllows, BindingHash, NeedsReceipt, Headers, Fail, Replay, ReachesService;
    ServiceRunsIff(cfg, s, input);
    if Dispatched(cfg, s, input).1.rows != s.rows { RowsNeedService(cfg, s, input); }
  }

  lemma RowsNeedService(cfg: Config, s: State, input: Input)
    requires Dispatched(cfg, s, input).1.rows != s.rows
    ensures ReachesService(cfg, s, input)
  {
    hide PeerScopeAllows, BindingHash, NeedsReceipt, Headers, Fail, Replay, ReachesService;
    assert Dispatched(cfg, s, input).1.runs != s.runs;
    ServiceRunsIff(cfg, s, input);
  }

  ghost predicate RowBound(cfg: Config, events: seq<Event>, key: Key) {
    var s := RunAll(cfg, State(map[], [], []), events);
    key in s.rows ==> Bound(cfg, events, key, s.rows[key])
  }

  lemma {:induction false} RowsBound(cfg: Config, events: seq<Event>, key: Key)
    ensures RowBound(cfg, events, key)
  {
    if events != [] {
      hide Dispatched, ReachesService, Bound;
      var front, e := events[..|events| - 1], events[|events| - 1];
      RowsBound(cfg, front, key);
      Snoc(events);
      var s, t := RunAll(cfg, State(map[], [], []), front), RunAll(cfg, State(map[], [], []), events);
      assert t == Next(cfg, s, e);
      if key in t.rows {
        if key in s.rows && t.rows[key] in {s.rows[key], s.rows[key].(saved := Damaged)} {
          BoundLater(cfg, front, e, key, s.rows[key], t.rows[key]);
        } else {
          CallBinds(cfg, s, e.input, key);
          BoundNow(cfg, front, e.input, key, t.rows[key]);
        }
      }
    }
  }

  lemma BoundNow(cfg: Config, events: seq<Event>, input: Input, key: Key, row: Row)
    requires ReachesService(cfg, RunAll(cfg, State(map[], [], []), events), input)
    requires KeyOf(input) == key && HashOf(cfg, input) == Some(row.requestHash)
    requires input.service.Returned? && row.saved.Saved? && row.saved.status == 200 && row.saved.response.Ok?
    requires row.saved.response.id == key.id && row.saved.response.result == input.service.result
    ensures Bound(cfg, events + [Call(input)], key, row)
  {
    assert (events + [Call(input)])[..|events|] == events;
    assert BoundBy(cfg, events + [Call(input)], key, row, |events|);
  }

  /** Over every run: an OK answer without a service run is that of an earlier call under the same key with the same
      binding, which ran its service, and carries the result the service returned there. */
  lemma ReplayIsOriginal(cfg: Config, events: seq<Event>, input: Input)
    requires var s := RunAll(cfg, State(map[], [], []), events);
             Dispatched(cfg, s, input).0.response.Ok? && Dispatched(cfg, s, input).1.runs == s.runs
    ensures var s := RunAll(cfg, State(map[], [], []), events);
            var o := Dispatched(cfg, s, input).0;
            && input.envelope.Parsed? && input.auth.Granted? && HashOf(cfg, input).Some?
            && o.headers == []
            && exists j: nat ::
                 BoundBy(cfg, events, KeyOf(input), Row(HashOf(cfg, input).value, Saved(o.status, o.response)), j)
  {
    hide PeerScopeAllows, BindingHash, NeedsReceipt, Headers, RunAll, ReachesService, BoundBy;
    var s := RunAll(cfg, State(map[], [], []), events);
    RowsBound(cfg, events, KeyOf(input));
    ServiceRunsIff(cfg, s, input);
    if ReachesService(cfg, s, input) { ServiceIsAnswered(cfg, s, input); }
  }

  /** What an error that comes from outside says itself about retrying. */
  ghost function OwnWord(cfg: Config, s: State, input: Input): Option<bool> {
    match input.envelope
    case Rejected(r) => r.retryable
    case Parsed(q) =>
      if cfg.methods(q.rpc).None? then None
      else
        match input.auth
        case Denied(r) => r.retryable
        case Granted(_) =>
          if ReachesService(cfg, s, input) && input.service.Threw? then input.service.refusal.retryable else None
  }

  /** Over every run: an error has the status of its code, is retryable when it says so itself or else when its code
      is, and names a time to retry exactly when it is. */
  lemma ErrorsAreLabelled(cfg: Config, events: seq<Event>, input: Input)
    ensures var s := RunAll(cfg, State(map[], [], []), events);
            var o := Dispatched(cfg, s, input).0;
            o.response.Err? ==>
              && o.status == cfg.httpStatus(o.response.code)
              && (var own := OwnWord(cfg, s, input);
                  o.response.retryable == if own.Some? then own.value else cfg.retryable(o.response.code))
              && o.headers == if o.response.retryable then [("Retry-After", "1")] else []
  {
    hide PeerScopeAllows, BindingHash, NeedsReceipt, Headers, RunAll, BoundBy, ReachesService;
    var s := RunAll(cfg, State(map[], [], []), events);
    if input.envelope.Parsed? && input.auth.Granted? {
      SavedIsOk(cfg, events, KeyOf(input));
      if cfg.methods(input.envelope.request.rpc).Some? {
        ReachedWhenExecuted(cfg, s, input);
      }
    }
  }

  lemma SavedIsOk(cfg: Config, events: seq<Event>, key: Key)
    ensures var s := RunAll(cfg, State(map[], [], []), events);
            key in s.rows && s.rows[key].saved.Saved? ==> s.rows[key].saved.response.Ok?
  {
    RowsBound(cfg, events, key);
  }

  lemma ReachedWhenExecuted(cfg: Config, s: State, input: Input)
    requires input.envelope.Parsed? && input.auth.Granted? && cfg.methods(input.envelope.request.rpc).Some?
    ensures ReachesService(cfg, s, input) <==>
              && Admitted(cfg, input)
              && (Mutating(cfg, input) ==> HashOf(cfg, input).Some? && !(cfg.lookup && KeyOf(input) in s.rows))
  {
    hide PeerScopeAllows, BindingHash;
    RolesMeet(cfg.methods(input.envelope.request.rpc).value.roles, input.auth.principal.roles);
  }

  // ---------- scopes ----------

  /** What a peer's grant must hold, method by method; any other method needs no scope. */
  lemma GrantNeeded(isTopic: string -> bool, scopes: seq<Scope>, rpc: string, params: Tree)
    ensures var ok, topic, list := PeerScopeAllows(isTopic, scopes, rpc, params), Get(Members(params), "topic"),
                                   Get(Members(params), "topics");
            var slug := Get(Members(params), "slug");
            if rpc == "events.publish" then
              ok <==> topic.Some? && topic.value.Str? && isTopic(topic.value.s)
                      && exists s | s in scopes :: s.permission == "events.emit" && topic.value.s in s.topics
            else if rpc in {"events.query", "events.subscribe"} then
              ok <==> list.Some? && list.value.Array? && forall t | t in list.value.items ::
                        && t.Str? && isTopic(t.s)
                        && exists s | s in scopes :: s.permission == "events.consume" && t.s in s.topics
            else if rpc == "events.ack" then ok <==> exists s | s in scopes :: s.permission == "events.consume"
            else if rpc in {"approval.request", "approval.cancel"} then
              ok <==> exists s | s in scopes :: s.permission == "approvals.request"
            else if rpc == "lineage.query" then ok <==> exists s | s in scopes :: s.permission == "lineage.read"
            else if rpc in {"product.plan", "product.install", "product.uninstall", "product.update",
                            "product.rollback", "product.health"} then
              ok <==> exists s | s in scopes ::
                        s.permission == "products.manage"
                        && (slug.Some? && slug.value.Str? ==> slug.value.s in s.products)
            else ok
  {
    hide Get;
  }

  /** Nothing a grant allows is lost when scopes are added to it. */
  lemma MoreScopesAllowMore(isTopic: string -> bool, a: seq<Scope>, b: seq<Scope>, rpc: string, params: Tree)
    requires PeerScopeAllows(isTopic, a, rpc, params)
    ensures PeerScopeAllows(isTopic, a + b, rpc, params) && PeerScopeAllows(isTopic, b + a, rpc, params)
  {
    assert forall x | x in a :: x in a + b && x in b + a;
  }

  /** A query or subscription is allowed to a peer that may consume nothing exactly when it names no topic. */
  lemma EmptyTopicListNeedsNoScope(isTopic: string -> bool, scopes: seq<Scope>, rpc: string, params: Tree)
    requires rpc == "events.query" || rpc == "events.subscribe"
    requires !HasScope(scopes, "events.consume")
    ensures PeerScopeAllows(isTopic, scopes, rpc, params) <==> Get(Members(params), "topics") == Some(Array([]))
  {
    var topics := Get(Members(params), "topics");
    if topics.Some? && topics.value.Array? && topics.value.items != [] {
      assert topics.value.items[0] in topics.value.items;
    }
  }
}
