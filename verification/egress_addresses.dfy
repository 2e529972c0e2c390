/** Address texts and the address policy of the egress guard. */
module EgressAddresses {
  import opened Bits
  import opened Options
  import opened Texts

  // ---------- digits, splitting and joining ----------

  predicate IsHexDigit(c: char) { IsDigit(c) || 'a' <= c <= 'f' }

  function DigitValue(c: char): (d: nat)
    requires IsHexDigit(c)
    ensures d < 16 && (IsDigit(c) ==> d < 10)
  {
    if IsDigit(c) then c as int - '0' as int else c as int - 'a' as int + 10
  }

  /** One to three decimal digits. */
  predicate IsOctetText(s: string) { 1 <= |s| <= 3 && forall i | 0 <= i < |s| :: IsDigit(s[i]) }

  /** One to four hexadecimal digits. */
  predicate IsGroupText(s: string) { 1 <= |s| <= 4 && forall i | 0 <= i < |s| :: IsHexDigit(s[i]) }

  function NumberOf(s: string, radix: nat): nat
    requires forall i | 0 <= i < |s| :: IsHexDigit(s[i])
  {
    if s == "" then 0 else NumberOf(s[..|s| - 1], radix) * radix + DigitValue(s[|s| - 1])
  }

  function Pow16(n: nat): nat { if n == 0 then 1 else 16 * Pow16(n - 1) }

  lemma {:induction false} NumberBound(s: string)
    requires forall i | 0 <= i < |s| :: IsHexDigit(s[i])
    ensures NumberOf(s, 16) < Pow16(|s|)
  {
    if s != "" { NumberBound(s[..|s| - 1]); }
  }

  lemma GroupBound(s: string)
    requires IsGroupText(s)
    ensures NumberOf(s, 16) < 65536
  {
    NumberBound(s);
    assert Pow16(1) == 16 && Pow16(2) == 256 && Pow16(3) == 4096 && Pow16(4) == 65536;
  }

  /** Splitting at every occurrence of one character. */
  function SplitOn(s: string, c: char): (parts: seq<string>)
    ensures |parts| > 0
  {
    if s == "" then [""]
    else
      var parts, x := SplitOn(s[..|s| - 1], c), s[|s| - 1];
      if x == c then parts + [""] else parts[..|parts| - 1] + [parts[|parts| - 1] + [x]]
  }

  /** Splitting at every "::", from the left. */
  function SplitDouble(s: string): (parts: seq<string>)
    ensures |parts| > 0
  {
    if |s| < 2 then [s]
    else if s[0] == ':' && s[1] == ':' then [""] + SplitDouble(s[2..])
    else
      var rest := SplitDouble(s[1..]);
      [[s[0]] + rest[0]] + rest[1..]
  }

  function NonEmpty(parts: seq<string>): seq<string> {
    if parts == [] then []
    else NonEmpty(parts[..|parts| - 1]) + if parts[|parts| - 1] == "" then [] else [parts[|parts| - 1]]
  }

  function Joined(parts: seq<string>, c: char): string {
    if parts == [] then ""
    else if |parts| == 1 then parts[0]
    else Joined(parts[..|parts| - 1], c) + [c] + parts[|parts| - 1]
  }

  // ---------- IPv4 ----------

  type Octets = (nat, nat, nat, nat)

  predicate IsDotted(s: string) {
    var parts := SplitOn(s, '.');
    |parts| == 4 && forall i | 0 <= i < 4 :: IsOctetText(parts[i])
  }

  function Octet(s: string): nat
    requires IsOctetText(s)
  {
    NumberOf(s, 10)
  }

  function ParseIPv4(host: string): (r: Option<Octets>)
    ensures r.Some? ==> r.value.0 <= 255 && r.value.1 <= 255 && r.value.2 <= 255 && r.value.3 <= 255
  {
    if !IsDotted(host) then None
    else
      var p := SplitOn(host, '.');
      var (a, b, c, d) := (Octet(p[0]), Octet(p[1]), Octet(p[2]), Octet(p[3]));
      if a <= 255 && b <= 255 && c <= 255 && d <= 255 then Some((a, b, c, d)) else None
  }

  const DENIED_V4: seq<(nat, nat, nat)> :=
    [(0, 0, 255), (10, 0, 255), (100, 64, 127), (127, 0, 255), (169, 254, 254), (172, 16, 31), (192, 0, 0), (192, 0, 2),
     (192, 168, 168), (198, 18, 19), (198, 51, 51), (203, 0, 0)]

  predicate IPv4Denied(ip: Octets) {
    ip.0 >= 224 || exists i | 0 <= i < |DENIED_V4| ::
                     ip.0 == DENIED_V4[i].0 && DENIED_V4[i].1 <= ip.1 <= DENIED_V4[i].2
  }

  /** The ranges the policy names. */
  predicate InNamedRange(ip: Octets) {
    || ip.0 == 0 || ip.0 == 10 || ip.0 == 127 || ip.0 >= 224
    || (ip.0 == 100 && 64 <= ip.1 <= 127)
    || (ip.0 == 169 && ip.1 == 254)
    || (ip.0 == 172 && 16 <= ip.1 <= 31)
    || (ip.0 == 192 && ip.1 == 0 && (ip.2 == 0 || ip.2 == 2))
    || (ip.0 == 192 && ip.1 == 168)
    || (ip.0 == 198 && 18 <= ip.1 <= 19)
    || (ip.0 == 198 && ip.1 == 51 && ip.2 == 100)
    || (ip.0 == 203 && ip.1 == 0 && ip.2 == 113)
  }

  /** Every named range is denied; beyond them the table, which looks at two octets only, also denies
      the rest of 192.0.0.0 to 192.2.255.255, of 198.51.0.0/16 and of 203.0.0.0/16. */
  lemma TableCoversRanges(ip: Octets)
    requires ip.0 <= 255 && ip.1 <= 255 && ip.2 <= 255 && ip.3 <= 255
    ensures IPv4Denied(ip) <==>
            InNamedRange(ip) || (ip.0 == 192 && ip.1 <= 2) || (ip.0 == 198 && ip.1 == 51) || (ip.0 == 203 && ip.1 == 0)
  {
    assert DENIED_V4[0] == (0, 0, 255) && DENIED_V4[1] == (10, 0, 255) && DENIED_V4[2] == (100, 64, 127);
    assert DENIED_V4[3] == (127, 0, 255) && DENIED_V4[4] == (169, 254, 254) && DENIED_V4[5] == (172, 16, 31);
    assert DENIED_V4[6] == (192, 0, 0) && DENIED_V4[7] == (192, 0, 2) && DENIED_V4[8] == (192, 168, 168);
    assert DENIED_V4[9] == (198, 18, 19) && DENIED_V4[10] == (198, 51, 51) && DENIED_V4[11] == (203, 0, 0);
  }

  lemma BroaderThanNamed()
    ensures IPv4Denied((192, 1, 1, 1)) && !InNamedRange((192, 1, 1, 1))
  {
    assert DENIED_V4[7] == (192, 0, 2);
  }

  // ---------- the two halves of a group ----------

  /** Two octets as one group, and back. */
  function GroupOf(hi: nat, lo: nat): nat { Or(Shl(hi, 8), lo) }
  function HighOctet(g: nat): nat { And(Shr(g, 8), 0xff) }
  function LowOctet(g: nat): nat { And(g, 0xff) }

  lemma OctetsOfGroup(hi: nat, lo: nat)
    requires hi <= 255 && lo <= 255
    ensures GroupOf(hi, lo) == 256 * hi + lo && HighOctet(GroupOf(hi, lo)) == hi && LowOctet(GroupOf(hi, lo)) == lo
  {
    hide And, Or, Shl, Shr, Low, Ones, Pow2;
    ConstantsOfEight();
    ShlEight(hi);
    OrDisjoint(hi, lo, 8);
    var g := 256 * hi + lo;
    ShrEight(g);
    LowByte(hi);
    LowByte(g);
  }

  // ---------- masks ----------

  /** Comparing the upper k of n + k bits under a mask is membership in a block of addresses. */
  lemma MaskIsBlock(g: nat, c: nat, n: nat, k: nat)
    requires g < Pow2(n + k)
    ensures And(g, Shl(Ones(k), n)) == Shl(c, n) <==> Shl(c, n) <= g < Shl(c + 1, n)
  {
    hide And, Shl, Shr, Low, Ones, Pow2;
    HighBits(g, Ones(k), n);
    LowBits(Shr(g, n), k);
    ShrBound(g, n, k);
    LowAll(Shr(g, n), k);
    ShlInjective(Shr(g, n), c, n);
    ShrIff(g, c, n);
  }

  // ---------- IPv6 policy ----------

  ghost predicate IsGroups(g: seq<nat>) { |g| == 8 && forall i | 0 <= i < 8 :: g[i] < 65536 }

  predicate IPv6Denied(g: seq<nat>)
    requires |g| == 8
  {
    if (forall i | 0 <= i < 7 :: g[i] == 0) && (g[7] == 0 || g[7] == 1) then true
    else if (forall i | 0 <= i < 5 :: g[i] == 0) && g[5] == 0xffff then
      IPv4Denied((HighOctet(g[6]), LowOctet(g[6]), HighOctet(g[7]), LowOctet(g[7])))
    else
      || (g[0] == 0x2001 && (g[1] == 0x0db8 || g[1] == 0x0000))
      || g[0] == 0x2002
      || (g[0] == 0x0064 && g[1] == 0xff9b)
      || And(g[0], 0xffc0) == 0xfe80
      || And(g[0], 0xfe00) == 0xfc00
      || And(g[0], 0xff00) == 0xff00
  }

  lemma MaskConstants()
    ensures Pow2(16) == 65536
    ensures Shl(Ones(10), 6) == 0xffc0 && Shl(0x3fa, 6) == 0xfe80 && Shl(0x3fb, 6) == 0xfec0
    ensures Shl(Ones(7), 9) == 0xfe00 && Shl(0x7e, 9) == 0xfc00 && Shl(0x7f, 9) == 0xfe00
    ensures Shl(Ones(8), 8) == 0xff00 && Shl(0xff, 8) == 0xff00 && Shl(0x100, 8) == 0x10000
  {
    assert Pow2(4) == 16 && Pow2(6) == 64 && Pow2(8) == 256 && Pow2(10) == 1024;
    assert Pow2(12) == 4096 && Pow2(14) == 16384;
    assert Ones(2) == 3 && Ones(4) == 15 && Ones(6) == 63 && Ones(7) == 127 && Ones(8) == 255 && Ones(10) == 1023;
    hide Shl;
    ShlEight(1023);
    ShlEight(0x3fa);
    ShlEight(0x3fb);
    ShlEight(127);
    ShlEight(0x7e);
    ShlEight(255);
    ShlEight(256);
    ShlOnce(127, 8);
    ShlOnce(0x7e, 8);
    ShlOnce(0x7f, 8);
  }

  /** Outside the IPv4-mapped block, the policy denies exactly ::, ::1 and seven blocks. */
  lemma IPv6DeniedBlocks(g: seq<nat>)
    requires IsGroups(g) && !((forall i | 0 <= i < 5 :: g[i] == 0) && g[5] == 0xffff)
    ensures IPv6Denied(g) <==>
            || ((forall i | 0 <= i < 7 :: g[i] == 0) && g[7] <= 1)
            || (g[0] == 0x2001 && (g[1] == 0x0db8 || g[1] == 0)) || g[0] == 0x2002 || (g[0] == 0x64 && g[1] == 0xff9b)
            || 0xfe80 <= g[0] <= 0xfebf || 0xfc00 <= g[0] <= 0xfdff || 0xff00 <= g[0]
  {
    MaskConstants();
    hide And, Shl, Ones, Pow2, IPv4Denied;
    MaskIsBlock(g[0], 0x3fa, 6, 10);
    MaskIsBlock(g[0], 0x7e, 9, 7);
    MaskIsBlock(g[0], 0xff, 8, 8);
  }

  function MappedGroups(ip: Octets): seq<nat> {
    [0, 0, 0, 0, 0, 0xffff, GroupOf(ip.0, ip.1), GroupOf(ip.2, ip.3)]
  }

  /** The policy for an IPv4-mapped address is that of the IPv4 address, through the shifts and masks. */
  lemma MappedPolicy(ip: Octets)
    requires ip.0 <= 255 && ip.1 <= 255 && ip.2 <= 255 && ip.3 <= 255
    ensures IsGroups(MappedGroups(ip)) && (IPv6Denied(MappedGroups(ip)) <==> IPv4Denied(ip))
  {
    hide GroupOf, HighOctet, LowOctet, IPv4Denied;
    OctetsOfGroup(ip.0, ip.1);
    OctetsOfGroup(ip.2, ip.3);
    var g := MappedGroups(ip);
    assert g[5] == 0xffff;
  }

  // ---------- IPv6 text ----------

  predicate IsAddressChar(c: char) { IsHexDigit(c) || c == ':' || c == '.' }

  /** The first place from which the rest of the text is a dotted quad. */
  function TailAt(h: string, i: nat): (r: Option<nat>)
    requires i <= |h|
    ensures r.Some? ==> i <= r.value < |h| && IsDotted(h[r.value..])
    decreases |h| - i
  {
    if i == |h| then None else if IsDotted(h[i..]) then Some(i) else TailAt(h, i + 1)
  }

  predicate EndsWith(s: string, t: string) { |t| <= |s| && s[|s| - |t|..] == t }

  function StripColon(h: string): string {
    if EndsWith(h, ":") && !EndsWith(h, "::") then h[..|h| - 1] else h
  }

  predicate AreGroupTexts(parts: seq<string>) { forall i | 0 <= i < |parts| :: IsGroupText(parts[i]) }

  function Values(parts: seq<string>): (r: seq<nat>)
    requires AreGroupTexts(parts)
    ensures |r| == |parts|
  {
    if parts == [] then [] else Values(parts[..|parts| - 1]) + [NumberOf(parts[|parts| - 1], 16)]
  }

  function Zeros(n: nat): (r: seq<nat>)
    ensures |r| == n && forall i | 0 <= i < n :: r[i] == 0
  {
    if n == 0 then [] else Zeros(n - 1) + [0]
  }

  /** The groups of the text before the dotted tail, with the tail's groups. */
  function Assemble(rest: string, v4: seq<nat>): Option<seq<nat>> {
    var halves := SplitDouble(rest);
    if |halves| > 2 then None
    else
      var head := NonEmpty(SplitOn(halves[0], ':'));
      var tail := if |halves| == 2 then NonEmpty(SplitOn(halves[1], ':')) else [];
      if !AreGroupTexts(head + tail) then None
      else
        var groups := Values(head + tail);
        var total := |groups| + |v4|;
        if |halves| == 2 then
          if total > 8 then None else Some(groups[..|head|] + Zeros(8 - total) + groups[|head|..] + v4)
        else if total != 8 then None
        else Some(groups + v4)
  }

  predicate IsAddressText(h: string) { h != "" && forall i | 0 <= i < |h| :: IsAddressChar(h[i]) }

  function ParseIPv6(host: string): Option<seq<nat>> {
    var h := Lower(host);
    if !IsAddressText(h) then None
    else
      match TailAt(h, 0)
      case None => Assemble(h, [])
      case Some(at) =>
        match ParseIPv4(h[at..])
        case None => None
        case Some(ip) => Assemble(StripColon(h[..at]), [GroupOf(ip.0, ip.1), GroupOf(ip.2, ip.3)])
  }

  /** The parts are converted one by one, up to the first that is no group. */
  method ReadGroups(parts: seq<string>) returns (r: Option<seq<nat>>)
    ensures r == if AreGroupTexts(parts) then Some(Values(parts)) else None
  {
    var groups: seq<nat> := [];
    for i := 0 to |parts|
      invariant AreGroupTexts(parts[..i]) && groups == Values(parts[..i])
    {
      if !IsGroupText(parts[i]) { return None; }
      assert parts[..i + 1][..i] == parts[..i];
      groups := groups + [NumberOf(parts[i], 16)];
    }
    assert parts[..|parts|] == parts;
    return Some(groups);
  }

  /** The parser as the program runs it. */
  method ReadIPv6(host: string) returns (r: Option<seq<nat>>)
    ensures r == ParseIPv6(host)
  {
    hide GroupOf, IsDotted, SplitOn, SplitDouble, NonEmpty, AreGroupTexts, Values, Lower, StripColon, Zeros;
    hide IsAddressText;
    var h := Lower(host);
    if !IsAddressText(h) { return None; }
    var v4: seq<nat> := [];
    var at := TailAt(h, 0);
    if at.Some? {
      var ip := ParseIPv4(h[at.value..]);
      if ip.None? { return None; }
      v4 := [GroupOf(ip.value.0, ip.value.1), GroupOf(ip.value.2, ip.value.3)];
      h := StripColon(h[..at.value]);
    }
    var halves := SplitDouble(h);
    if |halves| > 2 { return None; }
    var head := NonEmpty(SplitOn(halves[0], ':'));
    var tail := if |halves| == 2 then NonEmpty(SplitOn(halves[1], ':')) else [];
    var read := ReadGroups(head + tail);
    if read.None? { return None; }
    var groups := read.value;
    var total := |groups| + |v4|;
    if |halves| == 2 {
      if total > 8 { return None; }
      return Some(groups[..|head|] + Zeros(8 - total) + groups[|head|..] + v4);
    }
    if total != 8 { return None; }
    return Some(groups + v4);
  }

  lemma {:induction false} ValuesBound(parts: seq<string>)
    requires AreGroupTexts(parts)
    ensures forall i | 0 <= i < |parts| :: Values(parts)[i] < 65536
  {
    if parts != [] {
      ValuesBound(parts[..|parts| - 1]);
      GroupBound(parts[|parts| - 1]);
    }
  }

  lemma AssembleShape(rest: string, v4: seq<nat>)
    requires forall i | 0 <= i < |v4| :: v4[i] < 65536
    ensures Assemble(rest, v4).Some? ==> IsGroups(Assemble(rest, v4).value)
  {
    hide NumberOf, SplitOn, SplitDouble, NonEmpty, Values;
    var halves := SplitDouble(rest);
    if |halves| <= 2 {
      var head := NonEmpty(SplitOn(halves[0], ':'));
      var tail := if |halves| == 2 then NonEmpty(SplitOn(halves[1], ':')) else [];
      if AreGroupTexts(head + tail) { ValuesBound(head + tail); }
    }
  }

  /** Whatever text is accepted, the result is eight groups below 65536. */
  lemma ParsedIsEightGroups(host: string)
    ensures ParseIPv6(host).Some? ==> IsGroups(ParseIPv6(host).value)
  {
    hide Assemble, GroupOf, IsDotted;
    var h := Lower(host);
    if IsAddressText(h) {
      match TailAt(h, 0) {
        case None => AssembleShape(h, []);
        case Some(at) =>
          match ParseIPv4(h[at..]) {
            case None =>
            case Some(ip) =>
              OctetsOfGroup(ip.0, ip.1);
              OctetsOfGroup(ip.2, ip.3);
              AssembleShape(StripColon(h[..at]), [GroupOf(ip.0, ip.1), GroupOf(ip.2, ip.3)]);
          }
      }
    }
  }
}
