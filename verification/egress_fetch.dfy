/** The egress guard: URL policy and redirect loop. */
module EgressFetch {
  import opened EgressAddresses
  import opened Options
  import opened Sequences
  import opened Texts

  // ---------- URL policy ----------

  /** A parsed URL. */
  datatype Url = Url(scheme: string, userinfo: bool, host: string, origin: string, rest: string)

  const DENIED_HOST_SUFFIXES: seq<string> :=
    ["localhost", "localhost.localdomain", "local", "internal", "home.arpa", "corp", "lan", "intranet"]

  function WithoutDot(h: string): string { if h != "" && h[|h| - 1] == '.' then h[..|h| - 1] else h }

  predicate IsBracketed(h: string) { |h| > 0 && h[0] == '[' && h[|h| - 1] == ']' }

  function Unbracketed(h: string): string
    requires IsBracketed(h)
  {
    if |h| >= 2 then h[1..|h| - 1] else ""
  }

  predicate TextDenied6(text: string) {
    var v6 := ParseIPv6(text);
    if v6.None? || |v6.value| != 8 then true else IPv6Denied(v6.value)
  }

  predicate HostDenied(hostname: string) { NameDenied(WithoutDot(Lower(hostname))) }

  predicate NameDenied(h: string) {
    if h == "" then true
    else if ParseIPv4(h).Some? then IPv4Denied(ParseIPv4(h).value)
    else if IsBracketed(h) then TextDenied6(Unbracketed(h))
    else if ':' in h then TextDenied6(h)
    else exists i | 0 <= i < |DENIED_HOST_SUFFIXES| :: Under(h, DENIED_HOST_SUFFIXES[i])
  }

  /** The suffix itself, or a name below it. */
  predicate Under(h: string, suffix: string) { h == suffix || EndsWith(h, "." + suffix) }

  predicate UrlAllowed(u: Url) { u.scheme == "https:" && !u.userinfo && !HostDenied(u.host) }

  predicate IsAddressLiteral(h: string) { ParseIPv4(h).Some? || IsBracketed(h) || ':' in h }

  // ---------- resolved addresses ----------

  function WithoutBrackets(a: string): string {
    var b := if a != "" && a[0] == '[' then a[1..] else a;
    if b != "" && b[|b| - 1] == ']' then b[..|b| - 1] else b
  }

  predicate AddressDenied(addr: string) {
    var literal := WithoutBrackets(addr);
    if ParseIPv4(literal).Some? then IPv4Denied(ParseIPv4(literal).value) else TextDenied6(literal)
  }

  ghost predicate NoneDenied(addrs: seq<string>) { forall i | 0 <= i < |addrs| :: !AddressDenied(addrs[i]) }

  datatype Clearance = Clear | ResolvesToDenied | ResolverFailed

  /** What the n-th lookup, if there is a resolver and the host is a name, says of the host. */
  ghost function Cleared(resolve: Option<(nat, string) -> Option<seq<string>>>, n: nat, host: string): Clearance {
    var h := WithoutDot(Lower(host));
    if resolve.None? || h == "" || IsAddressLiteral(h) then Clear
    else
      match resolve.value(n, h)
      case None => ResolverFailed
      case Some(addrs) => if NoneDenied(addrs) then Clear else ResolvesToDenied
  }

  method CheckResolvedAddresses(resolve: Option<(nat, string) -> Option<seq<string>>>, n: nat, host: string)
    returns (r: Clearance)
    ensures r == Cleared(resolve, n, host)
  {
    hide AddressDenied, IsAddressLiteral, Lower;
    if resolve.None? { return Clear; }
    var h := WithoutDot(Lower(host));
    if h == "" || IsAddressLiteral(h) { return Clear; }
    var looked := resolve.value(n, h);
    if looked.None? { return ResolverFailed; }
    var addrs := looked.value;
    for i := 0 to |addrs|
      invariant forall k | 0 <= k < i :: !AddressDenied(addrs[k])
    {
      if AddressDenied(addrs[i]) { return ResolvesToDenied; }
    }
    return Clear;
  }

  // ---------- headers ----------

  datatype Header = Header(name: string, value: string)

  const SENSITIVE_HEADERS: set<string> := {"authorization", "proxy-authorization", "cookie", "x-api-key"}

  predicate Sensitive(h: Header) { Lower(h.name) in SENSITIVE_HEADERS }

  /** What one hop is sent. */
  function Sent(headers: seq<Header>, home: bool): seq<Header> {
    if headers == [] then []
    else
      var last := headers[|headers| - 1];
      Sent(headers[..|headers| - 1], home) + if !home && Sensitive(last) then [] else [last]
  }

  method HopHeaders(headers: seq<Header>, home: bool) returns (r: seq<Header>)
    ensures r == Sent(headers, home)
  {
    r := [];
    for i := 0 to |headers|
      invariant r == Sent(headers[..i], home)
    {
      assert headers[..i + 1][..i] == headers[..i];
      if !home && Sensitive(headers[i]) { continue; }
      r := r + [headers[i]];
    }
    assert headers[..|headers|] == headers;
  }

  lemma {:induction false} AwayNothingSensitive(headers: seq<Header>)
    ensures forall h | h in Sent(headers, false) :: !Sensitive(h) && h in headers
    ensures forall h | h in headers && !Sensitive(h) :: h in Sent(headers, false)
    ensures Sent(headers, true) == headers
  {
    if headers != [] {
      AwayNothingSensitive(headers[..|headers| - 1]);
      Snoc(headers);
      assert forall h :: h in headers <==> h in headers[..|headers| - 1] || h == headers[|headers| - 1];
    }
  }

  // ---------- the redirect loop ----------

  datatype Answer = NoAnswer | Response(status: int, location: Option<string>)

  /** The transport and the resolver may answer each call differently; `join` resolves a location. */
  datatype World = World(join: (string, Url) -> Option<Url>, transport: (nat, Url, seq<Header>) -> Answer,
                         resolve: Option<(nat, string) -> Option<seq<string>>>)

  datatype Call = Call(url: Url, headers: seq<Header>)

  datatype Result = Got(status: int) | Denied(field: string) | TransportFailed | ResolutionFailed | BadLocation

  const REDIRECT_STATUS: set<int> := {301, 302, 303, 307, 308}

  function Next(w: World, url: Url, a: Answer): Option<Url> {
    if a.NoAnswer? || a.location.None? || a.location.value == "" then None else w.join(a.location.value, url)
  }

  /** From the n-th hop on, with so many redirects left: the calls made and what comes of it. */
  ghost function Hops(w: World, headers: seq<Header>, home: string, url: Url, n: nat, left: nat): (seq<Call>, Result)
    decreases left
  {
    match Cleared(w.resolve, n, url.host)
    case ResolverFailed => ([], ResolutionFailed)
    case ResolvesToDenied => ([], Denied("url"))
    case Clear =>
      var call := Call(url, Sent(headers, url.origin == home));
      var a := w.transport(n, url, call.headers);
      if a.NoAnswer? then ([call], TransportFailed)
      else if a.status !in REDIRECT_STATUS then ([call], Got(a.status))
      else if left == 0 then ([call], Denied("redirect"))
      else if a.location.None? || a.location.value == "" then ([call], Denied("redirect"))
      else
        var next := Next(w, url, a);
        if next.None? then ([call], BadLocation)
        else if !UrlAllowed(next.value) then ([call], Denied("url"))
        else
          var (calls, r) := Hops(w, headers, home, next.value, n + 1, left - 1);
          ([call] + calls, r)
  }

  function Redirects(max: int): nat { if max < 0 then 0 else max }

  ghost function Fetched(w: World, headers: seq<Header>, start: Option<Url>, max: int): (seq<Call>, Result) {
    if start.None? || !UrlAllowed(start.value) then ([], Denied("url"))
    else Hops(w, headers, start.value.origin, start.value, 0, Redirects(max))
  }

  /** The fetch; `calls` lists what the transport was given. `start` is None when it does not parse. */
  method EgressFetch(w: World, headers: seq<Header>, start: Option<Url>, max: int) returns (calls: seq<Call>, r: Result)
    ensures (calls, r) == Fetched(w, headers, start, max)
  {
    hide UrlAllowed, Cleared, Sent;
    calls := [];
    if start.None? || !UrlAllowed(start.value) { return calls, Denied("url"); }
    var url := start.value;
    var home := url.origin;
    var redirects: nat := 0;
    ghost var whole := Hops(w, headers, home, url, 0, Redirects(max));
    AddNil(whole.0);
    while true
      invariant redirects <= Redirects(max) && |calls| == redirects
      invariant var rest := Hops(w, headers, home, url, redirects, Redirects(max) - redirects);
                whole == (calls + rest.0, rest.1)
      decreases Redirects(max) - redirects
    {
      var sent := HopHeaders(headers, url.origin == home);
      var clearance := CheckResolvedAddresses(w.resolve, redirects, url.host);
      if clearance.ResolverFailed? { AddNil(calls); return calls, ResolutionFailed; }
      if clearance.ResolvesToDenied? { AddNil(calls); return calls, Denied("url"); }
      var a := w.transport(redirects, url, sent);
      ghost var before := calls;
      calls := calls + [Call(url, sent)];
      if a.NoAnswer? { return calls, TransportFailed; }
      if a.status !in REDIRECT_STATUS { return calls, Got(a.status); }
      redirects := redirects + 1;
      if redirects > max { return calls, Denied("redirect"); }
      if a.location.None? || a.location.value == "" { return calls, Denied("redirect"); }
      var next := w.join(a.location.value, url);
      if next.None? { return calls, BadLocation; }
      if !UrlAllowed(next.value) { return calls, Denied("url"); }
      url := next.value;
      Assoc(before, [calls[|before|]], Hops(w, headers, home, url, redirects, Redirects(max) - redirects).0);
    }
  }

  // ---------- what every call satisfies ----------

  /** Call k of a fetch that began its hops at n: URL policy, address policy, headers. */
  ghost predicate CallSafe(w: World, headers: seq<Header>, home: string, n: nat, calls: seq<Call>, k: nat)
    requires k < |calls|
  {
    var c := calls[k];
    && UrlAllowed(c.url) && Cleared(w.resolve, n + k, c.url.host).Clear?
    && c.headers == Sent(headers, c.url.origin == home)
  }

  /** Call k + 1 goes where the answer to call k redirects. */
  ghost predicate Follows(w: World, n: nat, calls: seq<Call>, k: nat)
    requires k + 1 < |calls|
  {
    Next(w, calls[k].url, w.transport(n + k, calls[k].url, calls[k].headers)) == Some(calls[k + 1].url)
  }

  lemma {:induction false} HopsSafe(w: World, headers: seq<Header>, home: string, url: Url, n: nat, left: nat)
    requires UrlAllowed(url)
    ensures var calls := Hops(w, headers, home, url, n, left).0;
            && |calls| <= left + 1 && (calls != [] ==> calls[0].url == url)
            && (forall k | 0 <= k < |calls| :: CallSafe(w, headers, home, n, calls, k))
            && (forall k | 0 <= k < |calls| - 1 :: Follows(w, n, calls, k))
    decreases left
  {
    hide UrlAllowed, Cleared, Sent;
    var calls := Hops(w, headers, home, url, n, left).0;
    if |calls| > 1 {
      var call := calls[0];
      var next := Next(w, url, w.transport(n, url, call.headers)).value;
      var rest := Hops(w, headers, home, next, n + 1, left - 1).0;
      HopsSafe(w, headers, home, next, n + 1, left - 1);
      assert calls == [call] + rest;
      forall k | 0 <= k < |calls| ensures CallSafe(w, headers, home, n, calls, k) {
        if k > 0 { assert CallSafe(w, headers, home, n + 1, rest, k - 1); }
      }
      forall k | 0 <= k < |calls| - 1 ensures Follows(w, n, calls, k) {
        if k > 0 { assert Follows(w, n + 1, rest, k - 1); }
      }
    }
  }

  /** For every transport and resolver: at most `max` + 1 calls; every URL called passed the URL policy
      and, if it names a host and a resolver is bound, its addresses passed theirs; and a header that
      is sensitive goes only to the origin of the start. */
  lemma EveryCallIsGuarded(w: World, headers: seq<Header>, start: Option<Url>, max: int)
    ensures var calls := Fetched(w, headers, start, max).0;
            && |calls| <= Redirects(max) + 1
            && forall k | 0 <= k < |calls| ::
                 && start.Some? && UrlAllowed(calls[k].url) && Cleared(w.resolve, k, calls[k].url.host).Clear?
                 && forall h | h in calls[k].headers :: Sensitive(h) ==> calls[k].url.origin == start.value.origin
  {
    hide UrlAllowed, Cleared, Sent, Sensitive;
    if start.Some? && UrlAllowed(start.value) {
      var home := start.value.origin;
      HopsSafe(w, headers, home, start.value, 0, Redirects(max));
      AwayNothingSensitive(headers);
      var calls := Fetched(w, headers, start, max).0;
      forall k | 0 <= k < |calls|
        ensures UrlAllowed(calls[k].url) && Cleared(w.resolve, k, calls[k].url.host).Clear?
        ensures forall h | h in calls[k].headers :: Sensitive(h) ==> calls[k].url.origin == home
      {
        assert CallSafe(w, headers, home, 0, calls, k);
      }
    }
  }

  /** Nothing else is withheld: the start and every hop back home get all headers, any other hop all but
      the sensitive ones. */
  lemma OtherHeadersArrive(w: World, headers: seq<Header>, start: Url, max: int, k: nat)
    requires UrlAllowed(start) && k < |Fetched(w, headers, Some(start), max).0|
    ensures var c := Fetched(w, headers, Some(start), max).0[k];
            && (c.url.origin == start.origin ==> c.headers == headers)
            && (forall h | h in headers && !Sensitive(h) :: h in c.headers)
  {
    hide UrlAllowed, Cleared, Sent, Sensitive;
    HopsSafe(w, headers, start.origin, start, 0, Redirects(max));
    AwayNothingSensitive(headers);
    assert CallSafe(w, headers, start.origin, 0, Fetched(w, headers, Some(start), max).0, k);
  }

  /** Case and one trailing dot make no difference to the policy. */
  lemma CaseAndDotIrrelevant(h: string)
    requires h != "" && h[|h| - 1] != '.'
    ensures HostDenied(h + ".") == HostDenied(h) == HostDenied(Lower(h))
  {
    hide Lower, NameDenied;
    LowerTwice(h);
    LowerSnoc(h, '.');
    LowerEnd(h);
    LowerEnd(Lower(h));
    Unsnoc(Lower(h), '.');
    assert WithoutDot(Lower(h)) == Lower(h);
    assert WithoutDot(Lower(h) + ".") == Lower(h);
  }

  lemma LowerEnd(s: string)
    requires s != "" && s[|s| - 1] != '.'
    ensures Lower(s) != "" && Lower(s)[|s| - 1] != '.'
  {
    Snoc(s);
    LowerSnoc(s[..|s| - 1], s[|s| - 1]);
  }
}
