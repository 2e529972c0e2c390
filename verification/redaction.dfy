/** Deep redaction of event payloads, with the stamp that records what was redacted. */
module Redaction {
  import opened JsonValues
  import opened Sequences

  type Tree = Json<string>

  const REDACTED: string := "[REDACTED]"

  /** Assigning to this name of a plain object sets its prototype instead of an entry. */
  const PROTO: string := "__proto__"

  datatype Config = Config(keys: set<string>, includeRawText: bool)

  datatype Stamp = Stamp(applied: bool, keys: seq<string>, patternHits: nat)

  predicate Selected(c: Config, key: string) { !(key == "rawText" && c.includeRawText) && key in c.keys }

  /** What is written for one entry: nothing when the name is that of the prototype. */
  function Written(name: string, value: Tree): seq<Member<string>> {
    if name == PROTO then [] else [Member(name, value)]
  }

  // ---------- value and hits ----------

  function Redact(c: Config, v: Tree): Tree
    decreases v, 1, 0
  {
    match v
    case Array(items) => Array(RedactItems(c, v, |items|))
    case Object(members) => Object(RedactMembers(c, v, |members|))
    case _ => v
  }

  /** The first n items. */
  function RedactItems(c: Config, v: Tree, n: nat): (r: seq<Tree>)
    requires v.Array? && n <= |v.items|
    ensures |r| == n
    decreases v, 0, n
  {
    if n == 0 then [] else RedactItems(c, v, n - 1) + [Redact(c, v.items[n - 1])]
  }

  function RedactMembers(c: Config, v: Tree, n: nat): seq<Member<string>>
    requires v.Object? && n <= |v.members|
    decreases v, 0, n
  {
    if n == 0 then []
    else
      var m := v.members[n - 1];
      RedactMembers(c, v, n - 1)
      + Written(m.name, if Selected(c, m.name) then Str(REDACTED) else Redact(c, m.value))
  }

  /** The names redacted, in the order they are met. */
  function Hits(c: Config, v: Tree): seq<string>
    decreases v, 1, 0
  {
    match v
    case Array(items) => ItemHits(c, v, |items|)
    case Object(members) => MemberHits(c, v, |members|)
    case _ => []
  }

  function ItemHits(c: Config, v: Tree, n: nat): seq<string>
    requires v.Array? && n <= |v.items|
    decreases v, 0, n
  {
    if n == 0 then [] else ItemHits(c, v, n - 1) + Hits(c, v.items[n - 1])
  }

  function MemberHits(c: Config, v: Tree, n: nat): seq<string>
    requires v.Object? && n <= |v.members|
    decreases v, 0, n
  {
    if n == 0 then []
    else
      var m := v.members[n - 1];
      MemberHits(c, v, n - 1) + if Selected(c, m.name) then [m.name] else Hits(c, m.value)
  }

  /** First occurrences, in order. */
  function Unique(hits: seq<string>): (r: seq<string>)
    ensures forall k :: k in r <==> k in hits
    ensures forall i, j | 0 <= i < j < |r| :: r[i] != r[j]
  {
    if hits == [] then []
    else
      var front, last := Unique(hits[..|hits| - 1]), hits[|hits| - 1];
      assert forall k :: k in hits <==> k in hits[..|hits| - 1] || k == last;
      if last in front then front else front + [last]
  }

  function StampOf(hits: seq<string>): Stamp { Stamp(hits != [], Unique(hits), |hits|) }

  function RedactDeep(c: Config, v: Tree): (Tree, Stamp) { (Redact(c, v), StampOf(Hits(c, v))) }

  // ---------- the redactor: one list of hits shared by the whole recursion ----------

  class Redactor {
    const config: Config
    var hits: seq<string>

    constructor (config: Config)
      ensures this.config == config && hits == []
    {
      this.config, hits := config, [];
    }

    method RedactUnknown(v: Tree) returns (r: Tree)
      modifies this
      ensures r == Redact(config, v) && hits == old(hits) + Hits(config, v)
      decreases v
    {
      match v {
        case Array(items) =>
          var out: seq<Tree> := [];
          for i := 0 to |items|
            invariant out == RedactItems(config, v, i) && hits == old(hits) + ItemHits(config, v, i)
          {
            Assoc(old(hits), ItemHits(config, v, i), Hits(config, items[i]));
            var item := RedactUnknown(items[i]);
            out := out + [item];
          }
          return Array(out);
        case Object(members) =>
          var out: seq<Member<string>> := [];
          for i := 0 to |members|
            invariant out == RedactMembers(config, v, i) && hits == old(hits) + MemberHits(config, v, i)
          {
            var m := members[i];
            Assoc(old(hits), MemberHits(config, v, i), OwnHits(config, m));
            if Selected(config, m.name) {
              out := out + Written(m.name, Str(REDACTED));
              hits := hits + [m.name];
            } else {
              var nested := RedactUnknown(m.value);
              out := out + Written(m.name, nested);
            }
          }
          return Object(out);
        case _ =>
          AddNil(hits);
          return v;
      }
    }
  }

  method RunRedaction(c: Config, v: Tree) returns (value: Tree, stamp: Stamp)
    ensures (value, stamp) == RedactDeep(c, v)
  {
    var redactor := new Redactor(c);
    value := redactor.RedactUnknown(v);
    var hits := redactor.hits;
    AddNil(Hits(c, v));
    stamp := Stamp(|hits| > 0, Unique(hits), |hits|);
  }

  // ---------- what is kept, what is marked ----------

  /** No entry is lost with a redaction in it: an entry named "__proto__" is not selected and holds no
      selected entry. */
  ghost predicate Keeps(c: Config, v: Tree) {
    match v
    case Array(items) => forall i | 0 <= i < |items| :: Keeps(c, items[i])
    case Object(members) => forall i | 0 <= i < |members| :: KeepsMember(c, members[i])
    case _ => true
  }

  ghost predicate KeepsMember(c: Config, m: Member<string>) {
    if Selected(c, m.name) then m.name != PROTO
    else if m.name == PROTO then Hits(c, m.value) == []
    else Keeps(c, m.value)
  }

  /** Every entry under a selected key, at any depth, is the marker. */
  ghost predicate Marked(c: Config, v: Tree) {
    match v
    case Array(items) => forall i | 0 <= i < |items| :: Marked(c, items[i])
    case Object(members) => forall i | 0 <= i < |members| :: MarkedMember(c, members[i])
    case _ => true
  }

  ghost predicate MarkedMember(c: Config, m: Member<string>) {
    m.name != PROTO && if Selected(c, m.name) then m.value == Str(REDACTED) else Marked(c, m.value)
  }

  /** Every entry of the result under a selected key holds the marker. */
  lemma {:induction false} ResultIsMarked(c: Config, v: Tree)
    ensures Marked(c, Redact(c, v))
    decreases v
  {
    match v {
      case Array(items) =>
        for n := 0 to |items|
          invariant forall i | 0 <= i < n :: Marked(c, RedactItems(c, v, n)[i])
        {
          ResultIsMarked(c, items[n]);
        }
      case Object(members) =>
        for n := 0 to |members|
          invariant forall i | 0 <= i < |RedactMembers(c, v, n)| :: MarkedMember(c, RedactMembers(c, v, n)[i])
        {
          if !Selected(c, members[n].name) { ResultIsMarked(c, members[n].value); }
        }
      case _ =>
    }
  }

  /** How many of the first n entries are written: all but those named "__proto__". */
  function Places(members: seq<Member<string>>, n: nat): nat
    requires n <= |members|
  {
    if n == 0 then 0 else Places(members, n - 1) + if members[n - 1].name == PROTO then 0 else 1
  }

  /** r is v with nothing changed but the entries under a selected name, at any depth: every other entry keeps its
      name, its place among the entries written, and its value. */
  ghost predicate Survives(c: Config, v: Tree, r: Tree) {
    match v
    case Array(items) =>
      r.Array? && |r.items| == |items| && forall i | 0 <= i < |items| :: Survives(c, items[i], r.items[i])
    case Object(members) =>
      && r.Object? && |r.members| == Places(members, |members|)
      && forall i | 0 <= i < |members| && members[i].name != PROTO ::
           EntrySurvives(c, members[i], r.members, Places(members, i))
    case _ => r == v
  }

  ghost predicate EntrySurvives(c: Config, m: Member<string>, written: seq<Member<string>>, place: nat) {
    && place < |written| && written[place].name == m.name
    && if m.name in c.keys && (m.name != "rawText" || !c.includeRawText) then written[place].value == Str("[REDACTED]")
       else Survives(c, m.value, written[place].value)
  }

  /** The first n entries survive in `written`, which holds nothing else. */
  ghost predicate FirstSurvive(c: Config, members: seq<Member<string>>, written: seq<Member<string>>, n: nat)
    requires n <= |members|
  {
    && |written| == Places(members, n)
    && forall i | 0 <= i < n && members[i].name != PROTO :: EntrySurvives(c, members[i], written, Places(members, i))
  }

  lemma SurvivesLonger(c: Config, m: Member<string>, written: seq<Member<string>>, more: seq<Member<string>>,
                       place: nat)
    requires EntrySurvives(c, m, written, place)
    ensures EntrySurvives(c, m, written + more, place)
  {
    hide Selected, Survives;
  }

  lemma MoreSurvive(c: Config, members: seq<Member<string>>, written: seq<Member<string>>, n: nat, value: Tree)
    requires n < |members| && FirstSurvive(c, members, written, n)
    requires if Selected(c, members[n].name) then value == Str(REDACTED) else Survives(c, members[n].value, value)
    ensures FirstSurvive(c, members, written + Written(members[n].name, value), n + 1)
  {
    var more := written + Written(members[n].name, value);
    assert members[n].name != PROTO ==> EntrySurvives(c, members[n], more, |written|);
    hide Selected, Survives, EntrySurvives;
    forall i | 0 <= i < n && members[i].name != PROTO
      ensures EntrySurvives(c, members[i], more, Places(members, i))
    {
      assert EntrySurvives(c, members[i], written, Places(members, i));
      SurvivesLonger(c, members[i], written, Written(members[n].name, value), Places(members, i));
    }
  }

  /** What is not selected survives redaction, for every value. */
  lemma {:induction false} RestSurvives(c: Config, v: Tree)
    ensures Survives(c, v, Redact(c, v))
    decreases v, 1, 0
  {
    match v {
      case Array(items) =>
        for n := 0 to |items|
          invariant forall i | 0 <= i < n :: Survives(c, items[i], RedactItems(c, v, n)[i])
        {
          RestSurvives(c, items[n]);
        }
      case Object(members) => MembersSurvive(c, v, |members|);
      case _ =>
    }
  }

  lemma {:induction false} MembersSurvive(c: Config, v: Tree, n: nat)
    requires v.Object? && n <= |v.members|
    ensures FirstSurvive(c, v.members, RedactMembers(c, v, n), n)
    decreases v, 0, n
  {
    hide Survives, Selected, Redact, EntrySurvives;
    if n > 0 {
      hide FirstSurvive;
      var m := v.members[n - 1];
      MembersSurvive(c, v, n - 1);
      if !Selected(c, m.name) { RestSurvives(c, m.value); }
      MoreSurvive(c, v.members, RedactMembers(c, v, n - 1), n - 1, Treated(c, m));
    }
  }

  /** A marked value is left as it is. */
  lemma {:induction false} MarkedIsFixed(c: Config, v: Tree)
    requires Marked(c, v)
    ensures Redact(c, v) == v
    decreases v
  {
    match v {
      case Array(items) =>
        for n := 0 to |items|
          invariant RedactItems(c, v, n) == items[..n]
        {
          MarkedIsFixed(c, items[n]);
          assert items[..n + 1] == items[..n] + [items[n]];
        }
        assert items[..|items|] == items;
      case Object(members) =>
        for n := 0 to |members|
          invariant RedactMembers(c, v, n) == members[..n]
        {
          assert MarkedMember(c, members[n]);
          if !Selected(c, members[n].name) { MarkedIsFixed(c, members[n].value); }
          assert members[..n + 1] == members[..n] + [members[n]];
        }
        assert members[..|members|] == members;
      case _ =>
    }
  }

  /** Redacting a second time changes nothing in the value, whatever the value. */
  lemma ValueIdempotent(c: Config, v: Tree)
    ensures Redact(c, Redact(c, v)) == Redact(c, v)
  {
    ResultIsMarked(c, v);
    MarkedIsFixed(c, Redact(c, v));
  }

  // ---------- the stamp ----------

  lemma {:induction false} MemberHitsPrefix(c: Config, a: seq<Member<string>>, b: seq<Member<string>>, n: nat)
    requires n <= |a| && n <= |b| && a[..n] == b[..n]
    ensures MemberHits(c, Object(a), n) == MemberHits(c, Object(b), n)
  {
    if n > 0 {
      assert a[n - 1] == a[..n][n - 1] && b[n - 1] == b[..n][n - 1];
      assert a[..n - 1] == a[..n][..n - 1] && b[..n - 1] == b[..n][..n - 1];
      MemberHitsPrefix(c, a, b, n - 1);
    }
  }

  lemma {:induction false} ItemHitsPrefix(c: Config, a: seq<Tree>, b: seq<Tree>, n: nat)
    requires n <= |a| && n <= |b| && a[..n] == b[..n]
    ensures ItemHits(c, Array(a), n) == ItemHits(c, Array(b), n)
  {
    if n > 0 {
      assert a[n - 1] == a[..n][n - 1] && b[n - 1] == b[..n][n - 1];
      assert a[..n - 1] == a[..n][..n - 1] && b[..n - 1] == b[..n][..n - 1];
      ItemHitsPrefix(c, a, b, n - 1);
    }
  }

  function OwnHits(c: Config, m: Member<string>): seq<string> {
    if Selected(c, m.name) then [m.name] else Hits(c, m.value)
  }

  lemma MemberHitsPush(c: Config, a: seq<Member<string>>, m: Member<string>)
    ensures MemberHits(c, Object(a + [m]), |a| + 1) == MemberHits(c, Object(a), |a|) + OwnHits(c, m)
  {
    assert (a + [m])[..|a|] == a[..|a|];
    MemberHitsPrefix(c, a + [m], a, |a|);
  }

  lemma ItemHitsPush(c: Config, a: seq<Tree>, x: Tree)
    ensures ItemHits(c, Array(a + [x]), |a| + 1) == ItemHits(c, Array(a), |a|) + Hits(c, x)
  {
    assert (a + [x])[..|a|] == a[..|a|];
    ItemHitsPrefix(c, a + [x], a, |a|);
  }

  /** `again` finds what was found before, or strictly less: which, depends on `kept`. */
  ghost predicate Again(kept: bool, again: seq<string>, hits: seq<string>) {
    if kept then again == hits else |again| < |hits|
  }

  lemma AgainAppend(k: bool, a: seq<string>, h: seq<string>, k': bool, a': seq<string>, h': seq<string>)
    requires Again(k, a, h) && Again(k', a', h')
    ensures Again(k && k', a + a', h + h')
  {}

  function Treated(c: Config, m: Member<string>): Tree {
    if Selected(c, m.name) then Str(REDACTED) else Redact(c, m.value)
  }

  /** What a second pass finds in what was written for one entry. */
  function OwnAgain(c: Config, m: Member<string>): seq<string> {
    if m.name == PROTO then [] else OwnHits(c, Member(m.name, Treated(c, m)))
  }

  lemma MemberAgain(c: Config, m: Member<string>)
    requires !Selected(c, m.name) ==> Again(Keeps(c, m.value), Hits(c, Redact(c, m.value)), Hits(c, m.value))
    ensures Again(KeepsMember(c, m), OwnAgain(c, m), OwnHits(c, m))
  {
    hide Keeps, Hits, Redact, Selected;
  }

  lemma WrittenHits(c: Config, m: Member<string>, a: seq<Member<string>>)
    ensures var b := a + Written(m.name, Treated(c, m));
            MemberHits(c, Object(b), |b|) == MemberHits(c, Object(a), |a|) + OwnAgain(c, m)
  {
    hide MemberHits, OwnHits, Treated;
    if m.name == PROTO {
      AddNil(a);
      AddNil(MemberHits(c, Object(a), |a|));
    } else {
      MemberHitsPush(c, a, Member(m.name, Treated(c, m)));
    }
  }

  ghost predicate KeepsFirst(c: Config, members: seq<Member<string>>, n: nat)
    requires n <= |members|
  {
    forall i | 0 <= i < n :: KeepsMember(c, members[i])
  }

  /** The first n entries. */
  ghost predicate MembersAgain(c: Config, v: Tree, n: nat)
    requires v.Object? && n <= |v.members|
  {
    var a := RedactMembers(c, v, n);
    Again(KeepsFirst(c, v.members, n), MemberHits(c, Object(a), |a|), MemberHits(c, v, n))
  }

  lemma MoreMembersAgain(c: Config, v: Tree, n: nat)
    requires v.Object? && n < |v.members| && MembersAgain(c, v, n)
    requires var m := v.members[n]; Again(KeepsMember(c, m), OwnAgain(c, m), OwnHits(c, m))
    ensures MembersAgain(c, v, n + 1)
  {
    hide RedactMembers, MemberHits, KeepsFirst, KeepsMember, OwnAgain, OwnHits, Treated, Again;
    var a, m := RedactMembers(c, v, n), v.members[n];
    RedactMore(c, v, n);
    WrittenHits(c, m, a);
    AgainAppend(KeepsFirst(c, v.members, n), MemberHits(c, Object(a), |a|), MemberHits(c, v, n),
                KeepsMember(c, m), OwnAgain(c, m), OwnHits(c, m));
    hide *;
    KeepsOneMore(c, v.members, n);
    MembersAgainFrom(c, v, n + 1, RedactMembers(c, v, n + 1));
  }

  lemma MembersAgainFrom(c: Config, v: Tree, n: nat, a: seq<Member<string>>)
    requires v.Object? && n <= |v.members| && a == RedactMembers(c, v, n)
    ensures MembersAgain(c, v, n)
       <==> Again(KeepsFirst(c, v.members, n), MemberHits(c, Object(a), |a|), MemberHits(c, v, n))
  {}

  lemma KeepsOneMore(c: Config, members: seq<Member<string>>, n: nat)
    requires n < |members|
    ensures KeepsFirst(c, members, n + 1) <==> KeepsFirst(c, members, n) && KeepsMember(c, members[n])
  {}

  lemma RedactMore(c: Config, v: Tree, n: nat)
    requires v.Object? && n < |v.members|
    ensures RedactMembers(c, v, n + 1) == RedactMembers(c, v, n) + Written(v.members[n].name, Treated(c, v.members[n]))
    ensures MemberHits(c, v, n + 1) == MemberHits(c, v, n) + OwnHits(c, v.members[n])
  {}

  ghost predicate ItemsAgain(c: Config, v: Tree, n: nat)
    requires v.Array? && n <= |v.items|
  {
    Again(forall i | 0 <= i < n :: Keeps(c, v.items[i]), ItemHits(c, Array(RedactItems(c, v, n)), n), ItemHits(c, v, n))
  }

  lemma MoreItemsAgain(c: Config, v: Tree, n: nat)
    requires v.Array? && n < |v.items| && ItemsAgain(c, v, n)
    requires var x := v.items[n]; Again(Keeps(c, x), Hits(c, Redact(c, x)), Hits(c, x))
    ensures ItemsAgain(c, v, n + 1)
  {
    var x := v.items[n];
    ItemHitsPush(c, RedactItems(c, v, n), Redact(c, x));
    AgainAppend(forall i | 0 <= i < n :: Keeps(c, v.items[i]), ItemHits(c, Array(RedactItems(c, v, n)), n),
                ItemHits(c, v, n), Keeps(c, x), Hits(c, Redact(c, x)), Hits(c, x));
  }

  lemma NoMembersAgain(c: Config, v: Tree)
    requires v.Object?
    ensures MembersAgain(c, v, 0)
  {}

  lemma AllMembersAgain(c: Config, v: Tree)
    requires v.Object? && MembersAgain(c, v, |v.members|)
    ensures Again(Keeps(c, v), Hits(c, Redact(c, v)), Hits(c, v))
  {}

  /** A second pass meets the same names if every redaction was kept, and fewer otherwise. */
  lemma {:induction false} HitsAgain(c: Config, v: Tree)
    ensures Again(Keeps(c, v), Hits(c, Redact(c, v)), Hits(c, v))
    decreases v
  {
    match v {
      case Array(items) =>
        for n := 0 to |items|
          invariant ItemsAgain(c, v, n)
        {
          hide Keeps, Hits, Redact, ItemsAgain, Again;
          HitsAgain(c, items[n]);
          MoreItemsAgain(c, v, n);
        }
      case Object(members) =>
        hide Keeps, KeepsMember, Hits, Redact, OwnAgain, OwnHits, MembersAgain, Again;
        NoMembersAgain(c, v);
        for n := 0 to |members|
          invariant MembersAgain(c, v, n)
        {
          if !Selected(c, members[n].name) { HitsAgain(c, members[n].value); }
          MemberAgain(c, members[n]);
          MoreMembersAgain(c, v, n);
        }
        AllMembersAgain(c, v);
      case _ =>
    }
  }

  /** Redacting the result again gives the same value, and the same stamp exactly when no redaction was
      lost to an entry named "__proto__". */
  lemma StampIdempotentIff(c: Config, v: Tree)
    ensures var (value, stamp) := RedactDeep(c, v);
            RedactDeep(c, value).0 == value && (RedactDeep(c, value).1 == stamp <==> Keeps(c, v))
  {
    ValueIdempotent(c, v);
    HitsAgain(c, v);
  }

  lemma OneMember(c: Config, m: Member<string>)
    ensures Hits(c, Object([m])) == OwnHits(c, m)
    ensures Redact(c, Object([m])) == Object(Written(m.name, Treated(c, m)))
  {
    var v := Object([m]);
    RedactMore(c, v, 0);
    assert RedactMembers(c, v, 0) == [] && MemberHits(c, v, 0) == [];
  }

  /** Such an entry makes the stamps differ: the first counts a redaction the second cannot find. */
  lemma PrototypeEntryDiffers(c: Config, key: string, x: Tree)
    requires Selected(c, key) && !Selected(c, PROTO)
    ensures var v := Object([Member(PROTO, Object([Member(key, x)]))]);
            var (value, stamp) := RedactDeep(c, v);
            value == Object([]) && stamp.patternHits == 1 && RedactDeep(c, value).1.patternHits == 0
  {
    hide Hits, Redact, Selected;
    var inner := Object([Member(key, x)]);
    OneMember(c, Member(key, x));
    OneMember(c, Member(PROTO, inner));
    NoMembers(c);
  }

  lemma NoMembers(c: Config)
    ensures Hits(c, Object([])) == []
  {}

  // ---------- the count ----------

  /** The number of entries under a selected key, at any depth, inside one another or not. */
  function SelectedEntries(c: Config, v: Tree): nat
    decreases v, 1, 0
  {
    match v
    case Array(items) => SelectedInItems(c, v, |items|)
    case Object(members) => SelectedInMembers(c, v, |members|)
    case _ => 0
  }

  function SelectedInItems(c: Config, v: Tree, n: nat): nat
    requires v.Array? && n <= |v.items|
    decreases v, 0, n
  {
    if n == 0 then 0 else SelectedInItems(c, v, n - 1) + SelectedEntries(c, v.items[n - 1])
  }

  function SelectedInMembers(c: Config, v: Tree, n: nat): nat
    requires v.Object? && n <= |v.members|
    decreases v, 0, n
  {
    if n == 0 then 0
    else
      var m := v.members[n - 1];
      SelectedInMembers(c, v, n - 1) + (if Selected(c, m.name) then 1 else 0) + SelectedEntries(c, m.value)
  }

  lemma {:induction false} CountOfMarked(c: Config, v: Tree)
    requires Marked(c, v)
    ensures |Hits(c, v)| == SelectedEntries(c, v)
    decreases v
  {
    match v {
      case Array(items) =>
        for n := 0 to |items|
          invariant |ItemHits(c, v, n)| == SelectedInItems(c, v, n)
        {
          CountOfMarked(c, items[n]);
        }
      case Object(members) =>
        for n := 0 to |members|
          invariant |MemberHits(c, v, n)| == SelectedInMembers(c, v, n)
        {
          assert MarkedMember(c, members[n]);
          if !Selected(c, members[n].name) { CountOfMarked(c, members[n].value); }
        }
      case _ =>
    }
  }

  /** An entry, at any depth, has this name. */
  ghost predicate HasEntry(v: Tree, name: string) {
    match v
    case Array(items) => exists i | 0 <= i < |items| :: HasEntry(items[i], name)
    case Object(members) => exists i | 0 <= i < |members| :: EntryHas(members[i], name)
    case _ => false
  }

  ghost predicate EntryHas(m: Member<string>, name: string) { m.name == name || HasEntry(m.value, name) }

  /** The names found in a marked value are the selected names of its entries. */
  lemma {:induction false} NamesOfMarked(c: Config, v: Tree, name: string)
    requires Marked(c, v) && Selected(c, name)
    ensures name in Hits(c, v) <==> HasEntry(v, name)
    decreases v
  {
    match v {
      case Array(items) =>
        for n := 0 to |items|
          invariant name in ItemHits(c, v, n) <==> exists i | 0 <= i < n :: HasEntry(items[i], name)
        {
          NamesOfMarked(c, items[n], name);
        }
      case Object(members) =>
        for n := 0 to |members|
          invariant name in MemberHits(c, v, n) <==> exists i | 0 <= i < n :: EntryHas(members[i], name)
        {
          assert MarkedMember(c, members[n]);
          if !Selected(c, members[n].name) { NamesOfMarked(c, members[n].value, name); }
        }
      case _ =>
    }
  }

  /** A second pass over what was written for the first n entries finds no new name. */
  ghost predicate NothingNew(c: Config, v: Tree, n: nat)
    requires v.Object? && n <= |v.members|
  {
    var a := RedactMembers(c, v, n);
    forall k | k in MemberHits(c, Object(a), |a|) :: k in MemberHits(c, v, n)
  }

  lemma MoreOfNothingNew(c: Config, v: Tree, n: nat)
    requires v.Object? && n < |v.members| && NothingNew(c, v, n)
    requires var m := v.members[n];
             !Selected(c, m.name) ==> forall k | k in Hits(c, Redact(c, m.value)) :: k in Hits(c, m.value)
    ensures NothingNew(c, v, n + 1)
  {
    RedactMore(c, v, n);
    WrittenHits(c, v.members[n], RedactMembers(c, v, n));
    hide Hits, Redact, Selected, MemberHits, RedactMembers;
  }

  /** `keys` lists the names found in the order in which they were found first. */
  lemma {:induction false} UniqueInOrder(hits: seq<string>) returns (at: seq<nat>)
    ensures |at| == |Unique(hits)| && Rising(at)
    ensures forall i | 0 <= i < |at| ::
              at[i] < |hits| && hits[at[i]] == Unique(hits)[i] && Unique(hits)[i] !in hits[..at[i]]
  {
    at := [];
    if hits != [] {
      var n := |hits| - 1;
      var front, last := hits[..n], hits[n];
      at := UniqueInOrder(front);
      forall i | 0 <= i < |at| ensures hits[..at[i]] == front[..at[i]] && hits[at[i]] == front[at[i]] {}
      if last !in Unique(front) { at := at + [n]; }
    }
  }

  /** A second pass finds no name that was not found before. */
  lemma {:induction false} NoNewHits(c: Config, v: Tree)
    ensures forall k | k in Hits(c, Redact(c, v)) :: k in Hits(c, v)
    decreases v
  {
    match v {
      case Array(items) =>
        for n := 0 to |items|
          invariant forall k | k in ItemHits(c, Array(RedactItems(c, v, n)), n) :: k in ItemHits(c, v, n)
        {
          NoNewHits(c, items[n]);
          ItemHitsPush(c, RedactItems(c, v, n), Redact(c, items[n]));
        }
      case Object(members) =>
        for n := 0 to |members|
          invariant NothingNew(c, v, n)
        {
          hide Hits, Redact, Selected, NothingNew;
          if !Selected(c, members[n].name) { NoNewHits(c, members[n].value); }
          MoreOfNothingNew(c, v, n);
        }
      case _ =>
    }
  }

  /** `pattern_hits` counts exactly the marked entries of the result, and `keys` lists exactly their names, each
      once, unless one was lost; then the count is too high, and every name is still listed. */
  lemma PatternHitsCount(c: Config, v: Tree)
    ensures var (value, stamp) := RedactDeep(c, v);
            && SelectedEntries(c, value) <= stamp.patternHits
            && (SelectedEntries(c, value) == stamp.patternHits <==> Keeps(c, v))
            && (forall i, j | 0 <= i < j < |stamp.keys| :: stamp.keys[i] != stamp.keys[j])
            && (stamp.applied <==> stamp.patternHits > 0)
            && (forall k | k in stamp.keys :: Selected(c, k))
            && (forall k | Selected(c, k) && HasEntry(value, k) :: k in stamp.keys)
            && (Keeps(c, v) ==> forall k :: k in stamp.keys <==> Selected(c, k) && HasEntry(value, k))
  {
    hide Redact, Hits, Keeps, HasEntry, Marked, Selected, SelectedEntries, Unique;
    var value := Redact(c, v);
    ResultIsMarked(c, v);
    CountOfMarked(c, value);
    HitsAgain(c, v);
    HitsSelected(c, v);
    NoNewHits(c, v);
    forall k | Selected(c, k)
      ensures k in Hits(c, value) <==> HasEntry(value, k)
    {
      NamesOfMarked(c, value, k);
    }
  }

  lemma {:induction false} HitsSelected(c: Config, v: Tree)
    ensures forall k | k in Hits(c, v) :: Selected(c, k)
    decreases v
  {
    match v {
      case Array(items) =>
        for n := 0 to |items|
          invariant forall k | k in ItemHits(c, v, n) :: Selected(c, k)
        {
          HitsSelected(c, items[n]);
        }
      case Object(members) =>
        for n := 0 to |members|
          invariant forall k | k in MemberHits(c, v, n) :: Selected(c, k)
        {
          if !Selected(c, members[n].name) { HitsSelected(c, members[n].value); }
        }
      case _ =>
    }
  }
}
