/** What the egress guard lets out: destinations, redirects and answers, in terms of the addresses and names. */
module EgressPolicy {
  import opened AddressParts
  import opened Bits
  import opened EgressAddresses
  import opened EgressFetch
  import opened EgressTexts
  import opened Options
  import opened Texts

  // ---------- forbidden addresses and names ----------

  /** The named ranges, and what else the table's two octets cover. */
  predicate Forbidden4(ip: Octets) {
    InNamedRange(ip) || (ip.0 == 192 && ip.1 <= 2) || (ip.0 == 198 && ip.1 == 51) || (ip.0 == 203 && ip.1 == 0)
  }

  /** ::, ::1, a mapped forbidden IPv4 address, and the named blocks. */
  predicate Forbidden6(g: seq<nat>)
    requires |g| == 8
  {
    || ((forall i | 0 <= i < 7 :: g[i] == 0) && g[7] <= 1)
    || ((forall i | 0 <= i < 5 :: g[i] == 0) && g[5] == 0xffff
        && Forbidden4((g[6] / 256, g[6] % 256, g[7] / 256, g[7] % 256)))
    || (g[0] == 0x2001 && (g[1] == 0x0db8 || g[1] == 0)) || g[0] == 0x2002 || (g[0] == 0x64 && g[1] == 0xff9b)
    || 0xfe80 <= g[0] <= 0xfebf || 0xfc00 <= g[0] <= 0xfdff || 0xff00 <= g[0]
  }

  const LOCAL_NAMES: set<string> :=
    {"localhost", "localhost.localdomain", "local", "internal", "home.arpa", "corp", "lan", "intranet"}

  /** A local name, or a name below one. */
  predicate ForbiddenName(h: string) {
    exists suffix | suffix in LOCAL_NAMES :: h == suffix || EndsWith(h, "." + suffix)
  }

  lemma Forbidden4Iff(ip: Octets)
    requires ip.0 <= 255 && ip.1 <= 255 && ip.2 <= 255 && ip.3 <= 255
    ensures IPv4Denied(ip) <==> Forbidden4(ip)
  {
    TableCoversRanges(ip);
  }

  lemma Forbidden6Iff(g: seq<nat>)
    requires IsGroups(g)
    ensures IPv6Denied(g) <==> Forbidden6(g)
  {
    hide Forbidden4, IPv4Denied, HighOctet, LowOctet, GroupOf, And;
    if (forall i | 0 <= i < 5 :: g[i] == 0) && g[5] == 0xffff {
      var ip := (g[6] / 256, g[6] % 256, g[7] / 256, g[7] % 256);
      Forbidden4Iff(ip);
      OctetsOfGroup(ip.0, ip.1);
      OctetsOfGroup(ip.2, ip.3);
    } else {
      IPv6DeniedBlocks(g);
    }
  }

  lemma ForbiddenNameIff(h: string)
    ensures ForbiddenName(h) <==> exists i | 0 <= i < |DENIED_HOST_SUFFIXES| :: Under(h, DENIED_HOST_SUFFIXES[i])
  {
    var d := DENIED_HOST_SUFFIXES;
    assert d[0] == "localhost" && d[1] == "localhost.localdomain" && d[2] == "local" && d[3] == "internal";
    assert d[4] == "home.arpa" && d[5] == "corp" && d[6] == "lan" && d[7] == "intranet";
    hide EndsWith;
    if ForbiddenName(h) {
      var suffix :| suffix in LOCAL_NAMES && (h == suffix || EndsWith(h, "." + suffix));
      assert exists i :: 0 <= i < |d| && d[i] == suffix;
      var i :| 0 <= i < |d| && d[i] == suffix;
      assert Under(h, d[i]);
    }
    if i :| 0 <= i < |d| && Under(h, d[i]) {
      assert i == 0 || i == 1 || i == 2 || i == 3 || i == 4 || i == 5 || i == 6 || i == 7;
      assert d[i] in LOCAL_NAMES && (h == d[i] || EndsWith(h, "." + d[i]));
    }
  }

  lemma PrintedHasColon(f: Form)
    requires WellFormed(f)
    ensures ':' in Printed(f)
  {
    match f {
      case Full(texts, _) =>
        var n := |texts| - 1;
        assert Joined(texts, ':')[|Joined(texts[..n], ':')|] == ':';
      case Compressed(head, back, _) =>
        assert Body(f)[|Joined(head, ':')|] == ':';
    }
    var i :| 0 <= i < |Body(f)| && Body(f)[i] == ':';
    assert Printed(f)[i] == ':';
  }

  lemma FormText(f: Form)
    requires WellFormed(f)
    ensures var t := Printed(f);
            && t != "" && ParseIPv4(t).None? && |Meaning(f)| == 8
            && ParseIPv6(t) == Some(Meaning(f)) && (TextDenied6(t) <==> Forbidden6(Meaning(f)))
  {
    hide ParseIPv6, Printed, Meaning, IPv6Denied, Forbidden6, WellFormed;
    PrintedHasColon(f);
    if IsDotted(Printed(f)) { DottedHasNoColon(Printed(f)); }
    EveryFormParses(f);
    ParsedIsEightGroups(Printed(f));
    Forbidden6Iff(Meaning(f));
  }

  lemma DottedIsDigits(s: string, i: nat)
    requires IsDotted(s) && i < |s|
    ensures IsDigit(s[i]) || s[i] == '.'
  {
    PartsCover(s, '.', c => IsDigit(c));
  }

  lemma BracketedText(t: string)
    ensures IsBracketed("[" + t + "]") && Unbracketed("[" + t + "]") == t && ParseIPv4("[" + t + "]").None?
    ensures "[" + t + "]" != ""
  {
    var b := "[" + t + "]";
    assert b[1..|b| - 1] == t && b[0] == '[';
    if IsDotted(b) { DottedIsDigits(b, 0); }
  }

  // ---------- the URL policy ----------

  function HostOf(u: Url): string { WithoutDot(Lower(u.host)) }

  /** The host written as a dotted quad. */
  lemma QuadHost(u: Url, o: seq<string>)
    requires IsQuad(o) && HostOf(u) == Joined(o, '.')
    ensures UrlAllowed(u) <==>
            u.scheme == "https:" && !u.userinfo
            && !Forbidden4((NumberOf(o[0], 10), NumberOf(o[1], 10), NumberOf(o[2], 10), NumberOf(o[3], 10)))
  {
    hide IPv4Denied, Forbidden4, Lower, WithoutDot, Joined, ParseIPv4, TextDenied6, IsDotted;
    QuadParses(o);
    Forbidden4Iff((Octet(o[0]), Octet(o[1]), Octet(o[2]), Octet(o[3])));
  }

  /** The host written as an address in brackets, in any form. */
  lemma BracketedHost(u: Url, f: Form)
    requires WellFormed(f) && HostOf(u) == "[" + Printed(f) + "]"
    ensures |Meaning(f)| == 8
    ensures UrlAllowed(u) <==> u.scheme == "https:" && !u.userinfo && !Forbidden6(Meaning(f))
  {
    hide Forbidden6, Lower, WithoutDot, Printed, Meaning, ParseIPv4, TextDenied6, IsBracketed, Unbracketed;
    FormText(f);
    BracketedText(Printed(f));
  }

  /** What does not parse as an address is denied, in brackets or with a colon in it, and as a resolver's answer. */
  lemma UnreadableIsDenied(u: Url, text: string)
    requires text != "" && ParseIPv4(text).None? && ParseIPv6(text).None?
    ensures HostOf(u) == "[" + text + "]" || (HostOf(u) == text && ':' in text && text[0] != '[') ==> !UrlAllowed(u)
    ensures WithoutBrackets(text) == text ==> AddressDenied(text)
  {
    hide Lower, WithoutDot, ParseIPv4, ParseIPv6, IsBracketed, Unbracketed, WithoutBrackets;
    BracketedText(text);
    NotBracketed(text);
  }

  lemma NotBracketed(h: string)
    ensures h != "" && h[0] != '[' ==> !IsBracketed(h)
  {}

  /** The host is a name. */
  lemma NameHost(u: Url)
    requires HostOf(u) != "" && ParseIPv4(HostOf(u)).None? && ':' !in HostOf(u) && HostOf(u)[0] != '['
    ensures UrlAllowed(u) <==> u.scheme == "https:" && !u.userinfo && !ForbiddenName(HostOf(u))
  {
    hide Lower, WithoutDot, ParseIPv4, TextDenied6, Under, ForbiddenName;
    ForbiddenNameIff(HostOf(u));
  }

  /** For every transport and resolver: no URL called has another scheme than https, carries userinfo, or has as its
      host a quad in a forbidden range, a bracketed address in a forbidden block, or a local name. */
  lemma NoForbiddenUrl(w: World, headers: seq<Header>, start: Option<Url>, max: int, k: nat)
    requires k < |Fetched(w, headers, start, max).0|
    ensures var u := Fetched(w, headers, start, max).0[k].url;
            var h := HostOf(u);
            && u.scheme == "https:" && !u.userinfo && h != ""
            && (forall o: seq<string> | IsQuad(o) && h == Joined(o, '.') ::
                  !Forbidden4((NumberOf(o[0], 10), NumberOf(o[1], 10), NumberOf(o[2], 10), NumberOf(o[3], 10))))
            && (forall f: Form | WellFormed(f) && h == "[" + Printed(f) + "]" ::
                  |Meaning(f)| == 8 && !Forbidden6(Meaning(f)))
            && (ParseIPv4(h).None? && ':' !in h && h[0] != '[' ==> !ForbiddenName(h))
  {
    hide Forbidden4, Forbidden6, ForbiddenName, Lower, WithoutDot, ParseIPv4, Printed, Meaning, Joined, Fetched;
    EveryCallIsGuarded(w, headers, start, max);
    var u := Fetched(w, headers, start, max).0[k].url;
    var h := HostOf(u);
    forall o: seq<string> | IsQuad(o) && h == Joined(o, '.')
      ensures !Forbidden4((NumberOf(o[0], 10), NumberOf(o[1], 10), NumberOf(o[2], 10), NumberOf(o[3], 10)))
    {
      QuadHost(u, o);
    }
    forall f: Form | WellFormed(f) && h == "[" + Printed(f) + "]"
      ensures |Meaning(f)| == 8 && !Forbidden6(Meaning(f))
    {
      BracketedHost(u, f);
    }
    if ParseIPv4(h).None? && ':' !in h && h[0] != '[' { NameHost(u); }
  }

  // ---------- the addresses a name resolves to ----------

  /** An address a resolver answers, written as a quad or in any form of RFC 4291, is denied exactly when it is
      forbidden; brackets make no difference. */
  lemma ResolvedAddress(o: seq<string>, f: Form)
    ensures IsQuad(o) ==>
              (AddressDenied(Joined(o, '.')) <==>
                 Forbidden4((NumberOf(o[0], 10), NumberOf(o[1], 10), NumberOf(o[2], 10), NumberOf(o[3], 10))))
    ensures WellFormed(f) ==>
              && |Meaning(f)| == 8 && (AddressDenied(Printed(f)) <==> Forbidden6(Meaning(f)))
              && (AddressDenied("[" + Printed(f) + "]") <==> Forbidden6(Meaning(f)))
  {
    hide Forbidden4, Forbidden6, IPv4Denied, ParseIPv4, TextDenied6, Printed, Meaning, Joined, WellFormed, IsDotted;
    if IsQuad(o) {
      QuadParses(o);
      Forbidden4Iff((Octet(o[0]), Octet(o[1]), Octet(o[2]), Octet(o[3])));
      PlainText(Joined(o, '.'));
    }
    if WellFormed(f) {
      FormText(f);
      PrintedIsPlain(f);
      PlainText(Printed(f));
    }
  }

  /** Text without brackets. */
  predicate Plain(t: string) { t != "" && t[0] != '[' && t[|t| - 1] != ']' }

  lemma PlainText(t: string)
    requires t != "" && forall i | 0 <= i < |t| :: IsAddressChar(t[i]) || IsAddressChar(LowerChar(t[i]))
    ensures WithoutBrackets(t) == t && WithoutBrackets("[" + t + "]") == t
  {
    assert ("[" + t + "]")[1..] == t + "]" && (t + "]")[..|t|] == t;
    assert Plain(t);
  }

  lemma PrintedIsPlain(f: Form)
    requires WellFormed(f)
    ensures forall i | 0 <= i < |Printed(f)| :: IsAddressChar(LowerChar(Printed(f)[i]))
  {
    hide Printed, Meaning;
    EveryFormParses(f);
    var t := Printed(f);
    forall i | 0 <= i < |t| ensures IsAddressChar(LowerChar(t[i])) {
      LowerAt(t, i);
    }
  }

  /** A name that is cleared by a resolver was answered, and no address of the answer is denied. */
  lemma ClearedMeans(resolve: (nat, string) -> Option<seq<string>>, n: nat, host: string)
    requires var h := WithoutDot(Lower(host)); h != "" && ParseIPv4(h).None? && ':' !in h && h[0] != '['
    ensures var answer := resolve(n, WithoutDot(Lower(host)));
            Cleared(Some(resolve), n, host).Clear?
            <==> answer.Some? && forall i | 0 <= i < |answer.value| :: !AddressDenied(answer.value[i])
  {
    hide Lower, WithoutDot, ParseIPv4, AddressDenied;
  }

  // ---------- redirects and outcomes ----------

  predicate Redirected(a: Answer) { a.Response? && a.status in {301, 302, 303, 307, 308} }

  function AnswerTo(w: World, n: nat, c: Call): Answer { w.transport(n, c.url, c.headers) }

  /** What stops the next call. */
  ghost predicate Stopped(w: World, n: nat, url: Url, r: Result) {
    !Cleared(w.resolve, n, url.host).Clear?
    && r == (if Cleared(w.resolve, n, url.host).ResolverFailed? then ResolutionFailed else Denied("url"))
  }

  /** The outcome is that of the last answer, or of what stops the next call. */
  ghost predicate Ends(w: World, url: Url, n: nat, left: nat, calls: seq<Call>, r: Result) {
    if calls == [] then Stopped(w, n, url, r)
    else
      var m := |calls| - 1;
      var a := AnswerTo(w, n + m, calls[m]);
      var next := Next(w, calls[m].url, a);
      if a.NoAnswer? then r == TransportFailed
      else if !Redirected(a) then r == Got(a.status)
      else if m == left || a.location.None? || a.location.value == "" then r == Denied("redirect")
      else if next.None? then r == BadLocation
      else if !UrlAllowed(next.value) then r == Denied("url")
      else Stopped(w, n + m + 1, next.value, r)
  }

  ghost predicate AllRedirected(w: World, n: nat, calls: seq<Call>) {
    forall k | 0 <= k < |calls| - 1 :: Redirected(AnswerTo(w, n + k, calls[k]))
  }

  lemma EndsCons(w: World, url: Url, n: nat, left: nat, call: Call, next: Url, rest: seq<Call>, r: Result)
    requires left > 0 && call.url == url && Redirected(AnswerTo(w, n, call))
    requires Next(w, url, AnswerTo(w, n, call)) == Some(next) && UrlAllowed(next)
    requires Ends(w, next, n + 1, left - 1, rest, r) && AllRedirected(w, n + 1, rest)
    ensures Ends(w, url, n, left, [call] + rest, r) && AllRedirected(w, n, [call] + rest)
  {
    hide UrlAllowed, Stopped, AnswerTo;
    var calls := [call] + rest;
    forall k | 0 <= k < |calls| - 1 ensures Redirected(AnswerTo(w, n + k, calls[k])) {
      if k > 0 { assert calls[k] == rest[k - 1] && n + k == n + 1 + (k - 1); }
    }
    if rest != [] {
      assert calls[|calls| - 1] == rest[|rest| - 1] && n + (|calls| - 1) == n + 1 + (|rest| - 1);
    }
  }

  /** Only redirects are followed, and the outcome is that of the last answer, or of what stops the next call. */
  lemma {:induction false} HopsEnd(w: World, headers: seq<Header>, home: string, url: Url, n: nat, left: nat)
    ensures var (calls, r) := Hops(w, headers, home, url, n, left);
            AllRedirected(w, n, calls) && Ends(w, url, n, left, calls, r)
    decreases left
  {
    hide UrlAllowed, Cleared, Sent;
    if Cleared(w.resolve, n, url.host).Clear? {
      var (calls, r) := Hops(w, headers, home, url, n, left);
      var call := calls[0];
      var a := AnswerTo(w, n, call);
      var next := Next(w, url, a);
      if Redirected(a) && left > 0 && next.Some? && UrlAllowed(next.value) {
        HopsEnd(w, headers, home, next.value, n + 1, left - 1);
        EndsCons(w, url, n, left, call, next.value, Hops(w, headers, home, next.value, n + 1, left - 1).0, r);
      }
    }
  }

  /** A start that is allowed and cleared is called, with all its headers; any other is refused without a call. */
  lemma StartIsCalled(w: World, headers: seq<Header>, start: Option<Url>, max: int)
    ensures var (calls, r) := Fetched(w, headers, start, max);
            if start.Some? && UrlAllowed(start.value) && Cleared(w.resolve, 0, start.value.host).Clear?
            then calls != [] && calls[0] == Call(start.value, headers)
            else calls == [] && (r == Denied("url") || r == ResolutionFailed)
  {
    hide UrlAllowed, Cleared, Sent;
    AwayNothingSensitive(headers);
  }

  /** The headers that stay home are these four, in any case. */
  lemma SensitiveIs(h: Header)
    ensures Sensitive(h) <==> Lower(h.name) in {"authorization", "proxy-authorization", "cookie", "x-api-key"}
  {}
}
