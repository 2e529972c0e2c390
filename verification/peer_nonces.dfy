/** Peer proofs: the checks before a nonce is consumed, and two stores of consumed nonces. */
module PeerNonces {
  import opened Options
  import opened Sequences

  const PROOF_TTL_MS: int := 60000
  const PROOF_SKEW_MS: int := 5000
  const MAX_SAFE: int := 9007199254740991

  /** The grant behind an access token. */
  datatype Grant = Grant(peer: string, expires: int, revoked: bool, epoch: string)

  /** A request's proof headers; a timestamp that is not all digits is None. */
  datatype Proof = Proof(token: string, nonce: string, canonicalNonce: bool, epoch: string,
                         issued: Option<nat>, expires: Option<nat>, signed: bool)

  datatype Refusal = AuthRequired | TokenRevoked | TokenExpired

  /** A proof is checked at `now`; the nonce store reads the clock again. */
  datatype Call = Call(proof: Proof, now: int, storeNow: int)

  /** The checks that come before the nonce, in their order. */
  function Precheck(grants: map<string, Grant>, epoch: string, p: Proof, now: int): Option<Refusal> {
    if p.token !in grants then Some(AuthRequired)
    else
      var g := grants[p.token];
      if g.revoked then Some(TokenRevoked)
      else if now >= g.expires then Some(TokenExpired)
      else if p.epoch != epoch || p.epoch != g.epoch then Some(AuthRequired)
      else if p.issued.None? || p.expires.None? then Some(AuthRequired)
      else if p.issued.value > MAX_SAFE || p.expires.value > MAX_SAFE then Some(AuthRequired)
      else if p.expires.value - p.issued.value > PROOF_TTL_MS then Some(AuthRequired)
      else if p.issued.value > now + PROOF_SKEW_MS then Some(AuthRequired)
      else if now >= p.expires.value then Some(AuthRequired)
      else if p.expires.value > g.expires then Some(AuthRequired)
      else if !p.canonicalNonce then Some(AuthRequired)
      else None
  }

  /** What a call must bring to get as far as the nonce: a granted token that is neither revoked nor over, both
      epochs, a proof that lives at most a minute, is not issued more than five seconds ahead, is not over and
      does not outlive the token, and a canonical nonce. */
  predicate Presents(grants: map<string, Grant>, epoch: string, p: Proof, now: int) {
    && p.token in grants && !grants[p.token].revoked && now < grants[p.token].expires
    && p.epoch == epoch && p.epoch == grants[p.token].epoch
    && p.issued.Some? && p.issued.value <= 9007199254740991
    && p.expires.Some? && p.expires.value <= 9007199254740991
    && p.expires.value <= p.issued.value + 60000
    && p.issued.value <= now + 5000
    && now < p.expires.value <= grants[p.token].expires
    && p.canonicalNonce
  }

  /** The checks let through exactly that, and the refusal says whether the token is unknown, revoked or over;
      anything else is a missing authentication. */
  lemma PrecheckIff(grants: map<string, Grant>, epoch: string, p: Proof, now: int)
    ensures var r := Precheck(grants, epoch, p, now);
            && (r.None? <==> Presents(grants, epoch, p, now))
            && (r == Some(TokenRevoked) <==> p.token in grants && grants[p.token].revoked)
            && (r == Some(TokenExpired) <==>
                  p.token in grants && !grants[p.token].revoked && grants[p.token].expires <= now)
  {}

  // ---------- the purging store in memory ----------

  type Nonces = map<string, map<string, int>>

  function Purged(set_: map<string, int>, now: int): map<string, int> {
    map n | n in set_ && set_[n] > now :: set_[n]
  }

  function OfPeer(m: Nonces, peer: string): map<string, int> { if peer in m then m[peer] else map[] }

  /** Forgets what has run out, then answers whether the nonce is still there and keeps it if not. */
  function Consume(m: Nonces, peer: string, nonce: string, until: int, now: int): (bool, Nonces) {
    var live := Purged(OfPeer(m, peer), now);
    if nonce in live then (true, m[peer := live]) else (false, m[peer := live[nonce := until]])
  }

  // ---------- the durable store, which never forgets ----------

  type Documents = map<string, int>

  function DocKey(peer: string, nonce: string): string { peer + ":" + nonce }

  function ConsumeDurably(d: Documents, peer: string, nonce: string, until: int, now: int): (bool, Documents) {
    var key := DocKey(peer, nonce);
    if key in d && d[key] > now then (true, d) else (false, d[key := until])
  }

  // ---------- one request ----------

  /** A nonce is spent before the signature is checked. */
  function Resolve(grants: map<string, Grant>, epoch: string, m: Nonces, c: Call): (Option<Refusal>, Nonces) {
    var refusal := Precheck(grants, epoch, c.proof, c.now);
    if refusal.Some? then (refusal, m)
    else
      var g := grants[c.proof.token];
      var (seen, m') := Consume(m, g.peer, c.proof.nonce, g.expires, c.storeNow);
      (if seen || !c.proof.signed then Some(AuthRequired) else None, m')
  }

  function ResolveDurably(grants: map<string, Grant>, epoch: string, d: Documents, c: Call)
    : (Option<Refusal>, Documents)
  {
    var refusal := Precheck(grants, epoch, c.proof, c.now);
    if refusal.Some? then (refusal, d)
    else
      var g := grants[c.proof.token];
      var (seen, d') := ConsumeDurably(d, g.peer, c.proof.nonce, g.expires, c.storeNow);
      (if seen || !c.proof.signed then Some(AuthRequired) else None, d')
  }

  class InMemoryPeerTokenStore {
    var grants: map<string, Grant>
    var nonces: Nonces

    constructor ()
      ensures grants == map[] && nonces == map[]
    {
      grants, nonces := map[], map[];
    }

    method BindAccessToken(token: string, grant: Grant)
      modifies this`grants
      ensures grants == old(grants)[token := grant]
    {
      grants := grants[token := grant];
    }

    /** Answers whether the nonce was seen; the peer's expired nonces are dropped one by one first. */
    method NonceSeen(peer: string, nonce: string, until: int, now: int) returns (seen: bool)
      modifies this`nonces
      ensures (seen, nonces) == Consume(old(nonces), peer, nonce, until, now)
    {
      var set_ := if peer in nonces then nonces[peer] else map[];
      ghost var before := set_;
      var todo := set_.Keys;
      while todo != {}
        invariant todo <= set_.Keys <= before.Keys
        invariant forall n | n in set_ :: set_[n] == before[n]
        invariant forall n | n in before :: n in todo || (n in set_ <==> before[n] > now)
        decreases |todo|
      {
        var n :| n in todo;
        todo := todo - {n};
        if set_[n] <= now { set_ := set_ - {n}; }
      }
      assert set_ == Purged(before, now);
      if nonce in set_ {
        nonces := nonces[peer := set_];
        return true;
      }
      nonces := nonces[peer := set_[nonce := until]];
      return false;
    }

    method ResolvePeerPrincipal(epoch: string, c: Call) returns (refusal: Option<Refusal>)
      modifies this`nonces
      ensures (refusal, nonces) == Resolve(grants, epoch, old(nonces), c)
    {
      hide Consume;
      refusal := Precheck(grants, epoch, c.proof, c.now);
      if refusal.Some? { return; }
      var g := grants[c.proof.token];
      var seen := NonceSeen(g.peer, c.proof.nonce, g.expires, c.storeNow);
      return if seen || !c.proof.signed then Some(AuthRequired) else None;
    }
  }

  // ---------- both stores answer alike while the clock does not go back ----------

  datatype Ask = Ask(peer: string, nonce: string, until: int, now: int)

  function Answers(m: Nonces, asks: seq<Ask>): (r: (seq<bool>, Nonces))
    ensures |r.0| == |asks|
  {
    if asks == [] then ([], m)
    else
      var (before, m1) := Answers(m, asks[..|asks| - 1]);
      var a := asks[|asks| - 1];
      var (seen, m2) := Consume(m1, a.peer, a.nonce, a.until, a.now);
      (before + [seen], m2)
  }

  function DurableAnswers(d: Documents, asks: seq<Ask>): (r: (seq<bool>, Documents))
    ensures |r.0| == |asks|
  {
    if asks == [] then ([], d)
    else
      var (before, d1) := DurableAnswers(d, asks[..|asks| - 1]);
      var a := asks[|asks| - 1];
      var (seen, d2) := ConsumeDurably(d1, a.peer, a.nonce, a.until, a.now);
      (before + [seen], d2)
  }

  ghost predicate ClockForward(asks: seq<Ask>) {
    forall i | 0 <= i < |asks| - 1 :: asks[i].now <= asks[i + 1].now
  }

  /** Canonical base64url has no colon, so the document key determines peer and nonce. */
  ghost predicate NoncesPlain(asks: seq<Ask>) { forall i | 0 <= i < |asks| :: ':' !in asks[i].nonce }

  lemma ColonInside(p: string, n: string, q: string, m: string)
    requires DocKey(p, n) == DocKey(q, m) && |p| < |q|
    ensures ':' in n
  {
    var a, b, k := DocKey(p, n), DocKey(q, m), |q| - |p| - 1;
    assert b[|q|] == ':' && a[|q|] == n[k];
  }

  lemma KeyDetermines(p: string, n: string, q: string, m: string)
    requires ':' !in n && ':' !in m && DocKey(p, n) == DocKey(q, m)
    ensures p == q && n == m
  {
    if |p| < |q| {
      ColonInside(p, n, q, m);
    } else if |q| < |p| {
      ColonInside(q, m, p, n);
    } else {
      assert p == DocKey(p, n)[..|p|] && q == DocKey(q, m)[..|p|];
      assert n == DocKey(p, n)[|p| + 1..] && m == DocKey(q, m)[|p| + 1..];
    }
  }

  /** The nonce is remembered beyond `now`, until `until`. */
  predicate Remembers(m: Nonces, p: string, n: string, now: int, until: int) {
    until > now && p in m && n in m[p] && m[p][n] == until
  }

  predicate RemembersDurably(d: Documents, p: string, n: string, now: int, until: int) {
    until > now && DocKey(p, n) in d && d[DocKey(p, n)] == until
  }

  /** From `now` on the stores cannot be told apart. */
  ghost predicate Agree(m: Nonces, d: Documents, now: int) {
    forall p, n, until | ':' !in n :: Remembers(m, p, n, now, until) <==> RemembersDurably(d, p, n, now, until)
  }

  lemma ConsumeAgrees(m: Nonces, d: Documents, a: Ask, now: int)
    requires Agree(m, d, now) && now <= a.now && ':' !in a.nonce
    ensures var (seen, m') := Consume(m, a.peer, a.nonce, a.until, a.now);
            var (seen', d') := ConsumeDurably(d, a.peer, a.nonce, a.until, a.now);
            seen == seen' && Agree(m', d', a.now)
  {
    var (seen, m') := Consume(m, a.peer, a.nonce, a.until, a.now);
    var (seen', d') := ConsumeDurably(d, a.peer, a.nonce, a.until, a.now);
    var key := DocKey(a.peer, a.nonce);
    if seen { assert Remembers(m, a.peer, a.nonce, now, m[a.peer][a.nonce]); }
    if seen' { assert RemembersDurably(d, a.peer, a.nonce, now, d[key]); }
    forall p, n, until | ':' !in n
      ensures Remembers(m', p, n, a.now, until) <==> RemembersDurably(d', p, n, a.now, until)
    {
      if DocKey(p, n) == key { KeyDetermines(p, n, a.peer, a.nonce); }
      assert Remembers(m, p, n, now, until) <==> RemembersDurably(d, p, n, now, until);
    }
  }

  lemma {:induction false} StoresAgree(asks: seq<Ask>)
    requires ClockForward(asks) && NoncesPlain(asks)
    ensures Answers(map[], asks).0 == DurableAnswers(map[], asks).0
    ensures asks != [] ==> Agree(Answers(map[], asks).1, DurableAnswers(map[], asks).1, asks[|asks| - 1].now)
  {
    if asks != [] {
      var n := |asks| - 1;
      StoresAgree(asks[..n]);
      var m, d := Answers(map[], asks[..n]).1, DurableAnswers(map[], asks[..n]).1;
      var now := if n == 0 then asks[n].now else asks[n - 1].now;
      assert n > 0 ==> asks[..n][n - 1] == asks[n - 1];
      ConsumeAgrees(m, d, asks[n], now);
    }
  }

  /** The last of the asks that stored this nonce of this peer, or -1: an ask stores when what was stored
      last has run out. */
  function LastStore(asks: seq<Ask>, p: string, n: string): (i: int)
    ensures -1 <= i < |asks|
  {
    if asks == [] then -1
    else
      var k := |asks| - 1;
      var i := LastStore(asks[..k], p, n);
      if asks[k].peer == p && asks[k].nonce == n && (i < 0 || asks[i].until <= asks[k].now) then k else i
  }

  /** A later ask of the same peer came when the nonce stored at i had run out. */
  ghost predicate RanOut(asks: seq<Ask>, i: nat)
    requires i < |asks|
  {
    exists k | i < k < |asks| :: asks[k].peer == asks[i].peer && asks[k].now >= asks[i].until
  }

  /** At the last ask the clock is back before the end of a nonce that had run out since it was stored. */
  ghost predicate SteppedBack(asks: seq<Ask>) {
    && asks != []
    && var a, before := asks[|asks| - 1], asks[..|asks| - 1];
       var i := LastStore(before, a.peer, a.nonce);
       i >= 0 && before[i].until > a.now && RanOut(before, i)
  }

  /** What the stores hold of one nonce after asks they have answered alike. */
  ghost predicate Holds(m: Nonces, d: Documents, asks: seq<Ask>, p: string, n: string) {
    var i := LastStore(asks, p, n);
    && (DocKey(p, n) in d <==> i >= 0)
    && (i >= 0 ==> d[DocKey(p, n)] == asks[i].until)
    && (p in m && n in m[p] <==> i >= 0 && !RanOut(asks, i))
    && (p in m && n in m[p] ==> m[p][n] == asks[i].until)
  }

  lemma LastStoreIs(asks: seq<Ask>, p: string, n: string)
    ensures var i := LastStore(asks, p, n);
            i >= 0 ==> asks[i].peer == p && asks[i].nonce == n
  {}

  lemma RanOutSnoc(asks: seq<Ask>, a: Ask, i: nat)
    requires i < |asks|
    ensures RanOut(asks + [a], i) <==> RanOut(asks, i) || (a.peer == asks[i].peer && a.now >= asks[i].until)
  {
    var all := asks + [a];
    if a.peer == asks[i].peer && a.now >= asks[i].until { assert all[|asks|] == a; }
    if k :| i < k < |asks| && asks[k].peer == asks[i].peer && asks[k].now >= asks[i].until { assert all[k] == asks[k]; }
  }

  lemma SeenDiffers(m: Nonces, d: Documents, asks: seq<Ask>, a: Ask)
    requires Holds(m, d, asks, a.peer, a.nonce)
    ensures Consume(m, a.peer, a.nonce, a.until, a.now).0 != ConsumeDurably(d, a.peer, a.nonce, a.until, a.now).0
       <==> SteppedBack(asks + [a])
  {
    hide RanOut, DocKey, LastStore;
    Unsnoc(asks, a);
    LastStoreIs(asks, a.peer, a.nonce);
  }

  lemma HoldsSnoc(m: Nonces, d: Documents, asks: seq<Ask>, a: Ask, p: string, n: string)
    requires Holds(m, d, asks, p, n) && Holds(m, d, asks, a.peer, a.nonce) && ':' !in n && ':' !in a.nonce
    ensures var (seen, m') := Consume(m, a.peer, a.nonce, a.until, a.now);
            var (seen', d') := ConsumeDurably(d, a.peer, a.nonce, a.until, a.now);
            seen == seen' ==> Holds(m', d', asks + [a], p, n)
  {
    hide DocKey;
    Unsnoc(asks, a);
    var i := LastStore(asks, p, n);
    LastStoreIs(asks, p, n);
    if DocKey(p, n) == DocKey(a.peer, a.nonce) { KeyDetermines(p, n, a.peer, a.nonce); }
    if i >= 0 { RanOutSnoc(asks, a, i); }
  }

  lemma AnswersSnoc(asks: seq<Ask>, a: Ask)
    ensures var (before, m) := Answers(map[], asks);
            var (seen, m') := Consume(m, a.peer, a.nonce, a.until, a.now);
            Answers(map[], asks + [a]) == (before + [seen], m')
    ensures var (before, d) := DurableAnswers(map[], asks);
            var (seen, d') := ConsumeDurably(d, a.peer, a.nonce, a.until, a.now);
            DurableAnswers(map[], asks + [a]) == (before + [seen], d')
  {
    hide Consume, ConsumeDurably;
    assert (asks + [a])[..|asks|] == asks;
  }

  ghost predicate EverSteppedBack(asks: seq<Ask>) { exists j | 0 < j <= |asks| :: SteppedBack(asks[..j]) }

  lemma SteppedBackSnoc(asks: seq<Ask>, a: Ask)
    ensures EverSteppedBack(asks + [a]) <==> EverSteppedBack(asks) || SteppedBack(asks + [a])
  {
    hide SteppedBack;
    var all := asks + [a];
    assert all[..|all|] == all;
    forall j | 0 < j <= |asks| ensures all[..j] == asks[..j] {}
    if j :| 0 < j <= |asks| && SteppedBack(asks[..j]) { assert SteppedBack(all[..j]); }
    if SteppedBack(all) { assert SteppedBack(all[..|all|]); }
  }

  /** For every sequence of asks: the stores answer differently somewhere if and only if, at some ask,
      the clock is back before the end of a nonce last stored under it, and the peer asked anything
      after that end in between. */
  lemma {:induction false} DisagreeIff(asks: seq<Ask>)
    requires NoncesPlain(asks)
    ensures Answers(map[], asks).0 != DurableAnswers(map[], asks).0 <==> EverSteppedBack(asks)
    ensures Answers(map[], asks).0 == DurableAnswers(map[], asks).0
        ==> forall p, n | ':' !in n :: Holds(Answers(map[], asks).1, DurableAnswers(map[], asks).1, asks, p, n)
  {
    if asks != [] {
      hide Answers, DurableAnswers, SteppedBack, EverSteppedBack, Holds;
      var front, a := asks[..|asks| - 1], asks[|asks| - 1];
      DisagreeIff(front);
      Snoc(asks);
      DisagreeAtLast(front, a);
      SteppedBackSnoc(front, a);
    }
  }

  lemma DisagreeAtLast(asks: seq<Ask>, a: Ask)
    requires ':' !in a.nonce
    requires Answers(map[], asks).0 == DurableAnswers(map[], asks).0
        ==> forall p, n | ':' !in n :: Holds(Answers(map[], asks).1, DurableAnswers(map[], asks).1, asks, p, n)
    ensures Answers(map[], asks + [a]).0 != DurableAnswers(map[], asks + [a]).0
       <==> Answers(map[], asks).0 != DurableAnswers(map[], asks).0 || SteppedBack(asks + [a])
    ensures Answers(map[], asks + [a]).0 == DurableAnswers(map[], asks + [a]).0
        ==> forall p, n | ':' !in n ::
              Holds(Answers(map[], asks + [a]).1, DurableAnswers(map[], asks + [a]).1, asks + [a], p, n)
  {
    hide Answers, DurableAnswers, Consume, ConsumeDurably, SteppedBack, Holds;
    AnswersSnoc(asks, a);
    var (x, m) := Answers(map[], asks);
    var (y, d) := DurableAnswers(map[], asks);
    var seen := Consume(m, a.peer, a.nonce, a.until, a.now).0;
    var seen' := ConsumeDurably(d, a.peer, a.nonce, a.until, a.now).0;
    Unsnoc(x, seen);
    Unsnoc(y, seen');
    assert x + [seen] == y + [seen'] <==> x == y && seen == seen';
    if Answers(map[], asks).0 == DurableAnswers(map[], asks).0 {
      SeenDiffers(m, d, asks, a);
      forall p, n | ':' !in n && Answers(map[], asks + [a]).0 == DurableAnswers(map[], asks + [a]).0
        ensures Holds(Answers(map[], asks + [a]).1, DurableAnswers(map[], asks + [a]).1, asks + [a], p, n)
      {
        HoldsSnoc(m, d, asks, a, p, n);
      }
    }
  }

  lemma ThreeAnswers(m: Nonces, d: Documents, a: Ask, b: Ask, c: Ask)
    ensures var m1 := Consume(m, a.peer, a.nonce, a.until, a.now).1;
            var m2 := Consume(m1, b.peer, b.nonce, b.until, b.now).1;
            Answers(m, [a, b, c]).0[2] == Consume(m2, c.peer, c.nonce, c.until, c.now).0
    ensures var d1 := ConsumeDurably(d, a.peer, a.nonce, a.until, a.now).1;
            var d2 := ConsumeDurably(d1, b.peer, b.nonce, b.until, b.now).1;
            DurableAnswers(d, [a, b, c]).0[2] == ConsumeDurably(d2, c.peer, c.nonce, c.until, c.now).0
  {
    hide Consume, ConsumeDurably;
    assert [a, b, c][..2] == [a, b] && [a, b][..1] == [a] && [a][..0] == [];
    assert Answers(m, [a]).1 == Consume(m, a.peer, a.nonce, a.until, a.now).1;
    assert Answers(m, [a, b]).1 == Consume(Answers(m, [a]).1, b.peer, b.nonce, b.until, b.now).1;
    assert DurableAnswers(d, [a]).1 == ConsumeDurably(d, a.peer, a.nonce, a.until, a.now).1;
    assert DurableAnswers(d, [a, b]).1 == ConsumeDurably(DurableAnswers(d, [a]).1, b.peer, b.nonce, b.until, b.now).1;
  }

  /** The clock matters: a nonce forgotten when its time was up is new again if the clock steps back. */
  lemma ClockBackDisagrees(peer: string, n: string, o: string, until: int)
    requires ':' !in n && ':' !in o && n != o
    ensures var asks := [Ask(peer, n, until, until - 2), Ask(peer, o, until + 2, until),
                         Ask(peer, n, until, until - 1)];
            !Answers(map[], asks).0[2] && DurableAnswers(map[], asks).0[2]
  {
    var a, b, c := Ask(peer, n, until, until - 2), Ask(peer, o, until + 2, until), Ask(peer, n, until, until - 1);
    ThreeAnswers(map[], map[], a, b, c);
    if DocKey(peer, n) == DocKey(peer, o) { KeyDetermines(peer, n, peer, o); }
    var m1 := Consume(map[], a.peer, a.nonce, a.until, a.now).1;
    var m2 := Consume(m1, b.peer, b.nonce, b.until, b.now).1;
    assert n !in m2[peer];
  }

  // ---------- no proof is accepted twice ----------

  function Run(grants: map<string, Grant>, epoch: string, m: Nonces, calls: seq<Call>): (r: (seq<bool>, Nonces))
    ensures |r.0| == |calls|
  {
    if calls == [] then ([], m)
    else
      var (before, m1) := Run(grants, epoch, m, calls[..|calls| - 1]);
      var (refusal, m2) := Resolve(grants, epoch, m1, calls[|calls| - 1]);
      (before + [refusal.None?], m2)
  }

  function RunDurably(grants: map<string, Grant>, epoch: string, d: Documents, calls: seq<Call>)
    : (r: (seq<bool>, Documents))
    ensures |r.0| == |calls|
  {
    if calls == [] then ([], d)
    else
      var (before, d1) := RunDurably(grants, epoch, d, calls[..|calls| - 1]);
      var (refusal, d2) := ResolveDurably(grants, epoch, d1, calls[|calls| - 1]);
      (before + [refusal.None?], d2)
  }

  /** Over every run and either store: a call is accepted if and only if it presents what it must, is signed, and
      its nonce is not held by the store beyond the store's reading of the clock. Otherwise it is refused as
      revoked or expired if its token is, and for missing authentication in every other case. */
  lemma AcceptedIff(grants: map<string, Grant>, epoch: string, calls: seq<Call>, c: Call)
    ensures var m, d := Run(grants, epoch, map[], calls).1, RunDurably(grants, epoch, map[], calls).1;
            var p := c.proof;
            && (Run(grants, epoch, map[], calls + [c]).0[|calls|] <==>
                  && Presents(grants, epoch, p, c.now) && p.signed
                  && !(grants[p.token].peer in m && p.nonce in m[grants[p.token].peer]
                       && m[grants[p.token].peer][p.nonce] > c.storeNow))
            && (RunDurably(grants, epoch, map[], calls + [c]).0[|calls|] <==>
                  && Presents(grants, epoch, p, c.now) && p.signed
                  && !(grants[p.token].peer + ":" + p.nonce in d
                       && d[grants[p.token].peer + ":" + p.nonce] > c.storeNow))
            && RefusedFor(grants, c, Resolve(grants, epoch, m, c).0)
            && RefusedFor(grants, c, ResolveDurably(grants, epoch, d, c).0)
  {
    hide Precheck;
    PrecheckIff(grants, epoch, c.proof, c.now);
    Unsnoc(calls, c);
  }

  /** A call that presents what it must spends its nonce until the token's end, signed or not; any other leaves
      the store as it is. */
  lemma PresentedIsSpent(grants: map<string, Grant>, epoch: string, calls: seq<Call>, c: Call)
    ensures var m, m' := Run(grants, epoch, map[], calls).1, Run(grants, epoch, map[], calls + [c]).1;
            var p := c.proof;
            if !Presents(grants, epoch, p, c.now) then m' == m
            else
              var g := grants[p.token];
              && g.peer in m' && p.nonce in m'[g.peer]
              && m'[g.peer][p.nonce] == (if g.peer in m && p.nonce in m[g.peer] && m[g.peer][p.nonce] > c.storeNow
                                         then m[g.peer][p.nonce] else g.expires)
  {
    hide Precheck;
    PrecheckIff(grants, epoch, c.proof, c.now);
    Unsnoc(calls, c);
  }

  predicate RefusedFor(grants: map<string, Grant>, c: Call, r: Option<Refusal>) {
    && (r == Some(TokenRevoked) <==> c.proof.token in grants && grants[c.proof.token].revoked)
    && (r == Some(TokenExpired) <==>
          c.proof.token in grants && !grants[c.proof.token].revoked && grants[c.proof.token].expires <= c.now)
  }

  /** The readings of the clock are in order: each check before its store, each call after the one before. */
  ghost predicate ReadInOrder(calls: seq<Call>) {
    && (forall i | 0 <= i < |calls| :: calls[i].now <= calls[i].storeNow)
    && forall i | 0 <= i < |calls| - 1 :: calls[i].storeNow <= calls[i + 1].now
  }

  /** Canonical base64url has no colon. */
  ghost predicate CanonicalIsPlain(calls: seq<Call>) {
    forall i | 0 <= i < |calls| :: calls[i].proof.canonicalNonce ==> ':' !in calls[i].proof.nonce
  }

  lemma AgreeLater(m: Nonces, d: Documents, now: int, later: int)
    requires Agree(m, d, now) && now <= later
    ensures Agree(m, d, later)
  {
    forall p, n, until | ':' !in n
      ensures Remembers(m, p, n, later, until) <==> RemembersDurably(d, p, n, later, until)
    {
      assert Remembers(m, p, n, now, until) <==> RemembersDurably(d, p, n, now, until);
    }
  }

  /** Whole runs of authentication go alike over either store. */
  lemma {:induction false} RunsAgree(grants: map<string, Grant>, epoch: string, calls: seq<Call>)
    requires ReadInOrder(calls) && CanonicalIsPlain(calls)
    ensures Run(grants, epoch, map[], calls).0 == RunDurably(grants, epoch, map[], calls).0
    ensures calls != [] ==>
      Agree(Run(grants, epoch, map[], calls).1, RunDurably(grants, epoch, map[], calls).1, calls[|calls| - 1].storeNow)
  {
    hide Consume, ConsumeDurably, Agree;
    if calls == [] {
      return;
    }
    var n := |calls| - 1;
    var front, c := calls[..n], calls[n];
    RunsAgree(grants, epoch, front);
    var m, d := Run(grants, epoch, map[], front).1, RunDurably(grants, epoch, map[], front).1;
    var before := if n == 0 then c.now else calls[n - 1].storeNow;
    if n == 0 { NothingAgrees(c.now); }
    if Precheck(grants, epoch, c.proof, c.now).None? {
      var g := grants[c.proof.token];
      ConsumeAgrees(m, d, Ask(g.peer, c.proof.nonce, g.expires, c.storeNow), before);
    } else {
      AgreeLater(m, d, before, c.storeNow);
    }
  }

  lemma NothingAgrees(now: int)
    ensures Agree(map[], map[], now)
  {}

  /** The nonce of an accepted call stays in the store as long as its token is good. */
  predicate Spent(m: Nonces, g: Grant, nonce: string, now: int) {
    now >= g.expires || (g.peer in m && nonce in m[g.peer] && m[g.peer][nonce] >= g.expires)
  }

  lemma ResolveKeepsSpent(grants: map<string, Grant>, epoch: string, m: Nonces, c: Call, g: Grant, nonce: string,
                          before: int)
    requires Spent(m, g, nonce, before) && before <= c.now <= c.storeNow
    ensures Spent(Resolve(grants, epoch, m, c).1, g, nonce, c.storeNow)
  {}

  /** After an accepted call, its nonce is spent for its token. */
  lemma {:induction false} AcceptedIsSpent(grants: map<string, Grant>, epoch: string, calls: seq<Call>, i: nat)
    requires i < |calls| && ReadInOrder(calls)
    requires Run(grants, epoch, map[], calls).0[i]
    ensures var p := calls[i].proof;
            p.token in grants
            && Spent(Run(grants, epoch, map[], calls).1, grants[p.token], p.nonce, calls[|calls| - 1].storeNow)
  {
    var n := |calls| - 1;
    if i < n {
      AcceptedIsSpent(grants, epoch, calls[..n], i);
      var p := calls[i].proof;
      ResolveKeepsSpent(grants, epoch, Run(grants, epoch, map[], calls[..n]).1, calls[n], grants[p.token], p.nonce,
        calls[n - 1].storeNow);
    }
  }

  /** Readings in order, one access token and nonce accepted twice: then the token ran out between
      the two readings of the second call. */
  lemma {:induction false} ReplayStraddles(grants: map<string, Grant>, epoch: string, calls: seq<Call>, i: nat, j: nat)
    requires i < j < |calls| && ReadInOrder(calls)
    requires calls[i].proof.token == calls[j].proof.token && calls[i].proof.nonce == calls[j].proof.nonce
    requires Run(grants, epoch, map[], calls).0[i] && Run(grants, epoch, map[], calls).0[j]
    ensures var c := calls[j];
            c.proof.token in grants && c.now < grants[c.proof.token].expires <= c.storeNow
    decreases |calls|
  {
    var front := calls[..|calls| - 1];
    if j < |front| {
      ReplayStraddles(grants, epoch, front, i, j);
    } else {
      AcceptedIsSpent(grants, epoch, front, i);
    }
  }

  /** Until its token ends, the nonce of an accepted call is in the store with that end. */
  predicate SpentUntil(m: Nonces, g: Grant, nonce: string, now: int) {
    now < g.expires ==> g.peer in m && nonce in m[g.peer] && m[g.peer][nonce] == g.expires
  }

  lemma ResolveKeepsSpentUntil(grants: map<string, Grant>, epoch: string, m: Nonces, c: Call, g: Grant, nonce: string,
                               before: int)
    requires SpentUntil(m, g, nonce, before) && before <= c.now <= c.storeNow
    ensures SpentUntil(Resolve(grants, epoch, m, c).1, g, nonce, c.storeNow)
  {}

  lemma {:induction false} AcceptedIsSpentUntil(grants: map<string, Grant>, epoch: string, calls: seq<Call>, i: nat)
    requires i < |calls| && ReadInOrder(calls)
    requires Run(grants, epoch, map[], calls).0[i]
    ensures var p := calls[i].proof;
            && p.token in grants
            && SpentUntil(Run(grants, epoch, map[], calls).1, grants[p.token], p.nonce, calls[|calls| - 1].storeNow)
  {
    var n := |calls| - 1;
    if i < n {
      AcceptedIsSpentUntil(grants, epoch, calls[..n], i);
      var p := calls[i].proof;
      ResolveKeepsSpentUntil(grants, epoch, Run(grants, epoch, map[], calls[..n]).1, calls[n], grants[p.token], p.nonce,
        calls[n - 1].storeNow);
    }
  }

  /** Exactly when an accepted token and nonce are accepted again, by either store and whatever calls lie in
      between: the call passes the checks, is signed, and reads the clock for the store no earlier than the
      token's end. */
  lemma {:induction false} ReplayIff(grants: map<string, Grant>, epoch: string, calls: seq<Call>, i: nat, j: nat)
    requires i < j < |calls| && ReadInOrder(calls) && CanonicalIsPlain(calls)
    requires calls[i].proof.token == calls[j].proof.token && calls[i].proof.nonce == calls[j].proof.nonce
    requires Run(grants, epoch, map[], calls).0[i]
    ensures calls[j].proof.token in grants
    ensures var c := calls[j];
            Run(grants, epoch, map[], calls).0[j]
            <==> Presents(grants, epoch, c.proof, c.now) && c.proof.signed
                 && grants[c.proof.token].expires <= c.storeNow
    ensures Run(grants, epoch, map[], calls).0[j] == RunDurably(grants, epoch, map[], calls).0[j]
    decreases |calls|
  {
    var front := calls[..|calls| - 1];
    RunsAgree(grants, epoch, calls);
    if j < |front| {
      ReplayIff(grants, epoch, front, i, j);
    } else {
      AcceptedIsSpentUntil(grants, epoch, front, i);
      PrecheckIff(grants, epoch, calls[j].proof, calls[j].now);
    }
  }

  /** A call that reads the clock once is never a replay, by either store. */
  lemma NoReplay(grants: map<string, Grant>, epoch: string, calls: seq<Call>, i: nat, j: nat)
    requires i < j < |calls| && ReadInOrder(calls) && CanonicalIsPlain(calls) && calls[j].storeNow == calls[j].now
    requires calls[i].proof.token == calls[j].proof.token && calls[i].proof.nonce == calls[j].proof.nonce
    ensures !(Run(grants, epoch, map[], calls).0[i] && Run(grants, epoch, map[], calls).0[j])
    ensures !(RunDurably(grants, epoch, map[], calls).0[i] && RunDurably(grants, epoch, map[], calls).0[j])
  {
    RunsAgree(grants, epoch, calls);
    if Run(grants, epoch, map[], calls).0[i] && Run(grants, epoch, map[], calls).0[j] {
      ReplayStraddles(grants, epoch, calls, i, j);
    }
  }

  /** No call is checked before its token's end and stored after it. */
  ghost predicate NoneStraddles(grants: map<string, Grant>, calls: seq<Call>) {
    forall i | 0 <= i < |calls| ::
      calls[i].proof.token in grants && calls[i].now < grants[calls[i].proof.token].expires
      ==> calls[i].storeNow < grants[calls[i].proof.token].expires
  }

  predicate SpentDurably(d: Documents, g: Grant, nonce: string) {
    DocKey(g.peer, nonce) in d && d[DocKey(g.peer, nonce)] >= g.expires
  }

  lemma {:induction false} AcceptedIsSpentDurably(grants: map<string, Grant>, epoch: string, calls: seq<Call>, i: nat)
    requires i < |calls| && NoneStraddles(grants, calls)
    requires RunDurably(grants, epoch, map[], calls).0[i]
    ensures var p := calls[i].proof;
            p.token in grants && SpentDurably(RunDurably(grants, epoch, map[], calls).1, grants[p.token], p.nonce)
  {
    var n := |calls| - 1;
    var front := calls[..n];
    if i < n { AcceptedIsSpentDurably(grants, epoch, front, i); }
  }

  /** The durable store needs no monotone clock: whatever the clock does, no access token and nonce are
      accepted twice unless a token ends between the two readings of some call. */
  lemma {:induction false} NoReplayDurably(grants: map<string, Grant>, epoch: string, calls: seq<Call>, i: nat, j: nat)
    requires i < j < |calls| && NoneStraddles(grants, calls)
    requires calls[i].proof.token == calls[j].proof.token && calls[i].proof.nonce == calls[j].proof.nonce
    ensures !(RunDurably(grants, epoch, map[], calls).0[i] && RunDurably(grants, epoch, map[], calls).0[j])
    decreases |calls|
  {
    var n := |calls| - 1;
    var front := calls[..n];
    if j < n {
      NoReplayDurably(grants, epoch, front, i, j);
    } else if RunDurably(grants, epoch, map[], calls).0[i] {
      AcceptedIsSpentDurably(grants, epoch, front, i);
    }
  }

  /** The code reads the clock twice per call. A proof presented again just as its token runs out,
      checked before and looked up after, is accepted a second time by either store. */
  lemma StraddledReplay(grants: map<string, Grant>, epoch: string, p: Proof, early: int)
    requires p.token in grants && p.signed && early < grants[p.token].expires
    requires Presents(grants, epoch, p, early) && Presents(grants, epoch, p, grants[p.token].expires - 1)
    ensures var until := grants[p.token].expires;
            var first, again := Call(p, early, early), Call(p, until - 1, until);
            && Run(grants, epoch, map[], [first, again]).0 == [true, true]
            && RunDurably(grants, epoch, map[], [first, again]).0 == [true, true]
  {
    var until := grants[p.token].expires;
    var first, again := Call(p, early, early), Call(p, until - 1, until);
    assert [first, again][..1] == [first] && [first][..0] == [];
    assert Run(grants, epoch, map[], [first]).0 == [true];
    assert RunDurably(grants, epoch, map[], [first]).0 == [true];
  }
}
