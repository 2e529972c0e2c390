/**
 Every text form of section 2.2 of RFC 4291 is read as the address it stands for: eight groups, a run of zeros left out,
 a dotted tail, digits in either case. The forms are a datatype with printer and meaning that knows nothing of the
 parser.
 */
module EgressTexts {
  import opened AddressParts
  import opened EgressAddresses
  import opened Options
  import opened Sequences
  import opened Texts

  /** Eight groups, or fewer around "::"; the last two may be written as a dotted quad. */
  datatype Form =
    | Full(texts: seq<string>, quad: Option<seq<string>>)
    | Compressed(head: seq<string>, back: seq<string>, quad: Option<seq<string>>)

  /** Hexadecimal digits in either case. */
  predicate AreGroups(parts: seq<string>) { AreGroupTexts(LowerEach(parts)) }

  predicate IsQuad(octets: seq<string>) {
    |octets| == 4 && forall i | 0 <= i < 4 :: IsOctetText(octets[i]) && NumberOf(octets[i], 10) <= 255
  }

  function Width(quad: Option<seq<string>>): nat { if quad.Some? then 2 else 0 }

  predicate WellFormed(f: Form) {
    && (f.quad.Some? ==> IsQuad(f.quad.value))
    && match f
       case Full(texts, quad) => AreGroups(texts) && |texts| + Width(quad) == 8
       case Compressed(head, back, quad) => AreGroups(head) && AreGroups(back) && |head| + |back| + Width(quad) <= 7
  }

  function Body(f: Form): string {
    match f
    case Full(texts, _) => Joined(texts, ':')
    case Compressed(head, back, _) => Joined(head, ':') + "::" + Joined(back, ':')
  }

  /** A colon parts the quad from the groups before it, unless "::" does. */
  function Separator(f: Form): string {
    if f.quad.None? || (f.Compressed? && f.back == []) then "" else ":"
  }

  function Printed(f: Form): string {
    Body(f) + Separator(f) + if f.quad.Some? then Joined(f.quad.value, '.') else ""
  }

  function QuadGroups(quad: Option<seq<string>>): seq<nat>
    requires quad.Some? ==> IsQuad(quad.value)
  {
    match quad
    case None => []
    case Some(o) =>
      [256 * NumberOf(o[0], 10) + NumberOf(o[1], 10), 256 * NumberOf(o[2], 10) + NumberOf(o[3], 10)]
  }

  function Meaning(f: Form): seq<nat>
    requires WellFormed(f)
  {
    match f
    case Full(texts, quad) => Values(LowerEach(texts)) + QuadGroups(quad)
    case Compressed(head, back, quad) =>
      Values(LowerEach(head)) + Zeros(8 - |head| - |back| - Width(quad)) + Values(LowerEach(back)) + QuadGroups(quad)
  }

  // ---------- case ----------

  function Lowered(f: Form): Form {
    match f
    case Full(texts, quad) => Full(LowerEach(texts), quad)
    case Compressed(head, back, quad) => Compressed(LowerEach(head), LowerEach(back), quad)
  }

  lemma LowerQuad(octets: seq<string>)
    requires IsQuad(octets)
    ensures Lower(Joined(octets, '.')) == Joined(octets, '.')
  {
    forall i | 0 <= i < 4 ensures Lower(octets[i]) == octets[i] { LowerDigits(octets[i]); }
    LowerJoined(octets, '.');
    assert LowerEach(octets) == octets;
  }

  lemma LowerBody(f: Form)
    ensures Lower(Body(f)) == Body(Lowered(f))
  {
    hide Joined, Lower, LowerEach;
    match f {
      case Full(texts, _) => LowerJoined(texts, ':');
      case Compressed(head, back, _) =>
        LowerJoined(head, ':');
        LowerJoined(back, ':');
        LowerColons();
        LowerAppend(Joined(head, ':') + "::", Joined(back, ':'));
        LowerAppend(Joined(head, ':'), "::");
    }
  }

  lemma LowerPrinted(f: Form)
    requires WellFormed(f)
    ensures Lower(Printed(f)) == Printed(Lowered(f))
  {
    hide Joined, Lower, Body;
    var quad := if f.quad.Some? then Joined(f.quad.value, '.') else "";
    if f.quad.Some? { LowerQuad(f.quad.value); }
    LowerColons();
    LowerBody(f);
    LowerAppend(Body(f) + Separator(f), quad);
    LowerAppend(Body(f), Separator(f));
  }

  lemma LowerColons()
    ensures Lower("") == "" && Lower(":") == ":" && Lower("::") == "::"
  {
    LowerOne(':');
    LowerAppend(":", ":");
    assert ":" + ":" == "::";
  }

  // ---------- the parts of a printed form ----------

  /** A form whose hexadecimal digits are lower case. */
  predicate IsLower(f: Form) {
    match f
    case Full(texts, quad) => AreGroupTexts(texts) && |texts| + Width(quad) == 8
    case Compressed(head, back, quad) =>
      AreGroupTexts(head) && AreGroupTexts(back) && |head| + |back| + Width(quad) <= 7
  }

  predicate IsColonText(s: string) { forall i | 0 <= i < |s| :: IsHexDigit(s[i]) || s[i] == ':' }

  lemma {:induction false} JoinedColonText(parts: seq<string>)
    requires AreGroupTexts(parts)
    ensures IsColonText(Joined(parts, ':'))
  {
    if |parts| > 1 {
      JoinedColonText(parts[..|parts| - 1]);
      assert IsGroupText(parts[|parts| - 1]);
    } else if |parts| == 1 {
      assert IsGroupText(parts[0]);
    }
  }

  lemma ColonTexts(a: string, b: string)
    requires IsColonText(a) && IsColonText(b)
    ensures IsColonText(a + b)
  {}

  lemma BodyText(f: Form)
    requires IsLower(f)
    ensures IsColonText(Body(f)) && Body(f) != ""
  {
    hide Joined, IsColonText, AreGroupTexts;
    ColonIsText();
    match f {
      case Full(texts, _) =>
        JoinedColonText(texts);
        JoinedShape(texts);
      case Compressed(head, back, _) =>
        JoinedColonText(head);
        JoinedColonText(back);
        ColonTexts(Joined(head, ':'), "::");
        ColonTexts(Joined(head, ':') + "::", Joined(back, ':'));
    }
  }

  lemma ColonIsText()
    ensures IsColonText("::") && IsColonText(":") && IsColonText("")
  {}

  /** Before a quad the text ends in a colon, which is dropped unless it belongs to "::". */
  lemma BeforeQuad(f: Form)
    requires IsLower(f) && f.quad.Some?
    ensures var pre := Body(f) + Separator(f);
            pre != "" && pre[|pre| - 1] == ':' && StripColon(pre) == Body(f)
  {
    hide Joined, AreGroupTexts, NoDouble;
    match f {
      case Full(texts, _) =>
        JoinedShape(texts);
        StripOne(Body(f));
      case Compressed(head, back, _) =>
        JoinedShape(back);
        if back == [] {
          KeepTwo(Joined(head, ':'));
        } else {
          var a, b := Joined(head, ':') + "::", Joined(back, ':');
          assert (a + b)[|a + b| - 1] == b[|b| - 1];
          StripOne(a + b);
        }
    }
  }

  lemma StripOne(s: string)
    requires s != "" && s[|s| - 1] != ':'
    ensures StripColon(s + ":") == s
  {
    var t := s + ":";
    assert t[|t| - 1..] == ":" && t[|t| - 2..][0] == s[|s| - 1];
  }

  lemma KeepTwo(s: string)
    ensures StripColon(s + "::" + "" + "") == s + "::" + "" && (s + "::" + "" + "")[|s| + 1] == ':'
  {
    var t := s + "::" + "" + "";
    assert t[|t| - 2..] == "::" && t == s + "::" + "";
  }

  lemma QuadParses(o: seq<string>)
    requires IsQuad(o)
    ensures var q := Joined(o, '.');
            && IsDotted(q) && q != "" && (forall i | 0 <= i < |q| :: IsAddressChar(q[i]))
            && ParseIPv4(q) == Some((Octet(o[0]), Octet(o[1]), Octet(o[2]), Octet(o[3])))
  {
    forall i | 0 <= i < |o| ensures '.' !in o[i] { assert IsOctetText(o[i]); }
    SplitOnJoined(o, '.');
    PartsCover(Joined(o, '.'), '.', c => IsDigit(c));
  }

  /** Where the quad starts is where it is found. */
  lemma TailOf(pre: string, quad: string)
    requires IsDotted(quad) && quad != "" && pre != "" && pre[|pre| - 1] == ':'
    ensures var h := pre + quad; TailAt(h, 0) == Some(|pre|) && h[|pre|..] == quad && h[..|pre|] == pre
  {
    var h, n := pre + quad, |pre|;
    assert h[n..] == quad;
    forall j | 0 <= j < n ensures ':' in h[j..] { assert h[j..][n - 1 - j] == ':'; }
    TailFound(h, 0, n);
  }

  lemma AssembleBody(f: Form, v4: seq<nat>)
    requires IsLower(f) && |v4| == Width(f.quad)
    ensures Assemble(Body(f), v4)
            == Some(match f
                    case Full(texts, _) => Values(texts) + v4
                    case Compressed(head, back, quad) =>
                      Values(head) + Zeros(8 - |head| - |back| - Width(quad)) + Values(back) + v4)
  {
    hide Assemble, Joined, Values, Zeros, AreGroupTexts;
    match f {
      case Full(texts, _) => AssembleFull(texts, v4);
      case Compressed(head, back, _) => AssembleCompressed(head, back, v4);
    }
  }

  lemma QuadValue(o: seq<string>)
    requires IsQuad(o)
    ensures QuadGroups(Some(o)) == [GroupOf(Octet(o[0]), Octet(o[1])), GroupOf(Octet(o[2]), Octet(o[3]))]
  {
    hide GroupOf, HighOctet, LowOctet, IsOctetText, NumberOf;
    OctetsOfGroup(Octet(o[0]), Octet(o[1]));
    OctetsOfGroup(Octet(o[2]), Octet(o[3]));
  }

  lemma AddressText(a: string, quad: string)
    requires IsColonText(a) && a != "" && forall i | 0 <= i < |quad| :: IsAddressChar(quad[i])
    ensures IsAddressText(a + quad)
  {}

  lemma NoDots(s: string)
    requires IsColonText(s)
    ensures '.' !in s
  {}

  /** Any eight groups in any text form (upper or lower case, "::" for any run of zeros, a dotted tail)
      are read as exactly those groups. */
  lemma EveryFormParses(f: Form)
    requires WellFormed(f)
    ensures ParseIPv6(Printed(f)) == Some(Meaning(f))
  {
    hide Lower, IsColonText, IsAddressText, TailAt, Assemble, StripColon, Joined, Values, Zeros, IsDotted, ParseIPv4,
         GroupOf, Octet, NumberOf, AreGroupTexts, IsQuad, QuadGroups, Body, Separator, Meaning;
    var l := Lowered(f);
    LowerPrinted(f);
    var pre := Body(l) + Separator(l);
    LowerIsLower(f);
    BodyText(l);
    SeparatorText(l);
    ColonTexts(Body(l), Separator(l));
    var v4: seq<nat> := QuadGroups(f.quad);
    QuadWidth(f.quad);
    AssembleBody(l, v4);
    MeaningLower(f);
    if f.quad.Some? {
      var o := f.quad.value;
      var q := Joined(o, '.');
      QuadParses(o);
      QuadValue(o);
      BeforeQuad(l);
      TailOf(pre, q);
      AddressText(pre, q);
    } else {
      AddNil(pre);
      SeparatorNone(l);
      NoDots(pre);
      TailMissing(pre, 0);
      AddressText(pre, "");
    }
  }

  lemma LowerIsLower(f: Form)
    requires WellFormed(f)
    ensures IsLower(Lowered(f)) && Lowered(f).quad == f.quad && (f.quad.Some? ==> IsQuad(f.quad.value))
  {}

  lemma SeparatorText(f: Form)
    ensures IsColonText(Separator(f))
  {
    ColonIsText();
  }

  lemma SeparatorNone(f: Form)
    requires f.quad.None?
    ensures Body(f) + Separator(f) == Body(f)
  {
    AddNil(Body(f));
  }

  lemma QuadWidth(quad: Option<seq<string>>)
    requires quad.Some? ==> IsQuad(quad.value)
    ensures |QuadGroups(quad)| == Width(quad)
  {}

  lemma MeaningLower(f: Form)
    requires WellFormed(f)
    ensures AreGroups(if f.Full? then f.texts else f.head)
    ensures Meaning(f) == match Lowered(f)
                          case Full(texts, quad) => Values(texts) + QuadGroups(quad)
                          case Compressed(head, back, quad) =>
                            Values(head) + Zeros(8 - |head| - |back| - Width(quad)) + Values(back) + QuadGroups(quad)
  {
    hide Values, Zeros, LowerEach, AreGroupTexts, QuadGroups;
  }

  // ---------- IPv4-mapped texts, and a form for every address ----------

  lemma MappedForm(o: seq<string>)
    requires IsQuad(o)
    ensures var f := Compressed([], ["ffff"], Some(o));
            var ip := (Octet(o[0]), Octet(o[1]), Octet(o[2]), Octet(o[3]));
            WellFormed(f) && Printed(f) == "::ffff:" + Joined(o, '.') && Meaning(f) == MappedGroups(ip)
  {
    var f := Compressed([], ["ffff"], Some(o));
    LowerFfff();
    assert LowerEach(["ffff"]) == ["ffff"] && LowerEach([]) == [];
    assert Body(f) == "::ffff";
    QuadValue(o);
    assert ["ffff"][..0] == [];
    assert Values(["ffff"]) == [0xffff] && Values([]) == [];
    assert Meaning(f) == [] + Zeros(5) + [0xffff] + QuadGroups(Some(o));
  }

  lemma LowerFfff()
    ensures Lower("ffff") == "ffff" && IsGroupText("ffff") && NumberOf("ffff", 16) == 0xffff
  {
    hide Lower, NumberOf;
    assert "" + "f" == "f" && "f" + "f" == "ff" && "ff" + "f" == "fff" && "fff" + "f" == "ffff";
    Empty();
    OneMoreF("");
    OneMoreF("f");
    OneMoreF("ff");
    OneMoreF("fff");
  }

  lemma Empty()
    ensures Lower("") == "" && NumberOf("", 16) == 0
  {}

  lemma OneMoreF(s: string)
    requires Lower(s) == s && forall i | 0 <= i < |s| :: IsHexDigit(s[i])
    ensures Lower(s + "f") == s + "f" && NumberOf(s + "f", 16) == 16 * NumberOf(s, 16) + 15
  {
    LowerSnoc(s, 'f');
    NumberMore(s, 'f');
    hide Lower, NumberOf;
    assert s + "f" == s + ['f'];
  }

  lemma NumberMore(s: string, c: char)
    requires IsHexDigit(c) && forall i | 0 <= i < |s| :: IsHexDigit(s[i])
    ensures NumberOf(s + [c], 16) == 16 * NumberOf(s, 16) + DigitValue(c)
  {
    Unsnoc(s, c);
  }

  /** `::ffff:` in front of any dotted quad is treated exactly as the quad itself. */
  lemma MappedTextPolicy(o: seq<string>)
    requires IsQuad(o)
    ensures var mapped, plain := ParseIPv6("::ffff:" + Joined(o, '.')), ParseIPv4(Joined(o, '.'));
            && mapped.Some? && plain.Some? && |mapped.value| == 8
            && (IPv6Denied(mapped.value) <==> IPv4Denied(plain.value))
  {
    hide IPv6Denied, IPv4Denied, ParseIPv6, ParseIPv4, Meaning, Printed, WellFormed;
    MappedForm(o);
    EveryFormParses(Compressed([], ["ffff"], Some(o)));
    QuadParses(o);
    MappedPolicy((Octet(o[0]), Octet(o[1]), Octet(o[2]), Octet(o[3])));
  }

  function HexChar(d: nat): (c: char)
    requires d < 16
    ensures IsHexDigit(c) && LowerChar(c) == c && DigitValue(c) == d
  {
    if d < 10 then ('0' as int + d) as char else ('a' as int + d - 10) as char
  }

  function HexText(v: nat, n: nat): (s: string)
    ensures |s| == n && forall i | 0 <= i < n :: IsHexDigit(s[i])
  {
    if n == 0 then "" else HexText(v / 16, n - 1) + [HexChar(v % 16)]
  }

  lemma {:induction false} HexTextValue(v: nat, n: nat)
    requires v < Pow16(n)
    ensures NumberOf(HexText(v, n), 16) == v && Lower(HexText(v, n)) == HexText(v, n)
  {
    if n > 0 {
      HexTextValue(v / 16, n - 1);
      Unsnoc(HexText(v / 16, n - 1), HexChar(v % 16));
    }
  }

  function FullTexts(g: seq<nat>): seq<string> { seq(|g|, i requires 0 <= i < |g| => HexText(g[i], 4)) }

  lemma {:induction false} FullTextsValues(g: seq<nat>)
    requires forall i | 0 <= i < |g| :: g[i] < 65536
    ensures LowerEach(FullTexts(g)) == FullTexts(g) && AreGroupTexts(FullTexts(g)) && Values(FullTexts(g)) == g
  {
    forall i | 0 <= i < |g| ensures Lower(FullTexts(g)[i]) == FullTexts(g)[i] {
      HexTextValue(g[i], 4);
    }
    if g != [] {
      var n := |g| - 1;
      FullTextsValues(g[..n]);
      assert FullTexts(g)[..n] == FullTexts(g[..n]);
      HexTextValue(g[n], 4);
      Snoc(g);
    }
  }

  /** Every address has a text form: its full form of eight four-digit groups reads back as itself. */
  lemma FullFormRoundTrip(g: seq<nat>)
    requires IsGroups(g)
    ensures ParseIPv6(Joined(FullTexts(g), ':')) == Some(g)
  {
    hide ParseIPv6, Values, HexText, Joined;
    var f := Full(FullTexts(g), None);
    FullTextsValues(g);
    EveryFormParses(f);
    AddNil(g);
    AddNil(Body(f));
  }
}
