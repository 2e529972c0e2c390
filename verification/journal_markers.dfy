/**
 Commit markers and their closed JSON form: which members a marker has, in which order they are written, what each of
 them may hold, and what is read back. Records, objects and numbers are checked as strictly as the marker itself.
 */
module Markers {
  import opened JsonValues
  import opened Options
  import D = Decimals

  type Tree = Json<string>

  /** A JavaScript value: an object has each name once. */
  type Value = t: Tree | UniqueNames(t) witness Null

  const MAX_TX: nat := 9223372036854775807
  const MAX_SAFE: nat := 9007199254740991

  // ---------- markers ----------

  const MARKER_KEYS: seq<string> :=
    ["v", "tx", "previous", "records", "objects", "mutation", "result_sha256"]
  const LOCATOR_KEYS: seq<string> := ["lane", "segment", "offset", "length", "raw_sha256"]
  const DESCRIPTOR_KEYS: seq<string> := ["digest", "bytes"]

  datatype Locator = Locator(lane: string, segment: string, offset: nat, length: nat, rawSha: string)
  datatype Descriptor = Descriptor(digest: string, bytes: string)
  datatype Marker = Marker(tx: nat, previous: string, records: seq<Locator>, objects: seq<Descriptor>,
                           mutation: Value, result: string)

  predicate IsHex(c: char) { '0' <= c <= '9' || 'a' <= c <= 'f' }
  predicate IsHex64(s: string) { |s| == 64 && forall i | 0 <= i < |s| :: IsHex(s[i]) }
  predicate IsDecimal(s: string) { D.IsCanonical(s) && D.Value(s) <= MAX_TX }

  predicate IsAlnum(c: char) { '0' <= c <= '9' || 'a' <= c <= 'z' || 'A' <= c <= 'Z' }
  predicate IsLaneChar(c: char) { IsAlnum(c) || c == '/' || c == '_' || c == '-' }

  predicate IsLaneKey(s: string) {
    && 1 <= |s| <= 128 && IsAlnum(s[0])
    && (forall i | 1 <= i < |s| :: IsLaneChar(s[i]))
    && forall i | 0 <= i < |s| - 1 :: !(s[i] == '/' && s[i + 1] == '/')
  }

  predicate IsSegmentName(s: string) {
    && |s| == 23 && s[0] == 's' && s[17..] == ".jsonl"
    && forall i | 1 <= i < 17 :: IsHex(s[i])
  }

  predicate WellFormedLocator(r: Locator) {
    && IsLaneKey(r.lane) && IsSegmentName(r.segment)
    && r.offset <= MAX_SAFE && 1 <= r.length <= MAX_SAFE && IsHex64(r.rawSha)
  }

  predicate WellFormedDescriptor(o: Descriptor) { IsHex64(o.digest) && IsDecimal(o.bytes) }

  predicate WellFormed(m: Marker) {
    && m.tx <= MAX_TX && IsHex64(m.previous) && IsHex64(m.result)
    && (forall i | 0 <= i < |m.records| :: WellFormedLocator(m.records[i]))
    && forall i | 0 <= i < |m.objects| :: WellFormedDescriptor(m.objects[i])
  }

  /** An object with the given names and values, in order. */
  function Zip(keys: seq<string>, values: seq<Tree>): seq<Member<string>>
    requires |keys| == |values|
  {
    seq(|keys|, i requires 0 <= i < |keys| => Member(keys[i], values[i]))
  }

  function LocatorValues(r: Locator): seq<Tree> {
    [Str(r.lane), Str(r.segment), Number(D.Print(r.offset)), Number(D.Print(r.length)), Str(r.rawSha)]
  }

  function LocatorJson(r: Locator): Tree { Object(Zip(LOCATOR_KEYS, LocatorValues(r))) }

  function DescriptorJson(o: Descriptor): Tree {
    Object(Zip(DESCRIPTOR_KEYS, [Str(o.digest), Str(o.bytes)]))
  }

  function RecordsJson(rs: seq<Locator>): seq<Tree> {
    seq(|rs|, i requires 0 <= i < |rs| => LocatorJson(rs[i]))
  }

  function ObjectsJson(os: seq<Descriptor>): seq<Tree> {
    seq(|os|, i requires 0 <= i < |os| => DescriptorJson(os[i]))
  }

  function MarkerValues(m: Marker): seq<Tree> {
    [Number("1"), Str(D.Print(m.tx)), Str(m.previous), Array(RecordsJson(m.records)),
     Array(ObjectsJson(m.objects)), m.mutation, Str(m.result)]
  }

  function MarkerJson(m: Marker): Value {
    MarkerNamesUnique(m);
    Object(Zip(MARKER_KEYS, MarkerValues(m)))
  }

  lemma ZipUnique(keys: seq<string>, values: seq<Tree>)
    requires |keys| == |values| && Distinct(keys) && forall i | 0 <= i < |values| :: UniqueNames(values[i])
    ensures UniqueNames(Object(Zip(keys, values)))
  {}

  lemma MarkerNamesUnique(m: Marker)
    ensures UniqueNames(Object(Zip(MARKER_KEYS, MarkerValues(m))))
  {
    hide Zip, Distinct;
    KeysAreDistinct();
    forall i | 0 <= i < |m.records| ensures UniqueNames(LocatorJson(m.records[i])) {
      ZipUnique(LOCATOR_KEYS, LocatorValues(m.records[i]));
    }
    forall i | 0 <= i < |m.objects| ensures UniqueNames(DescriptorJson(m.objects[i])) {
      ZipUnique(DESCRIPTOR_KEYS, [Str(m.objects[i].digest), Str(m.objects[i].bytes)]);
    }
    ZipUnique(MARKER_KEYS, MarkerValues(m));
  }

  lemma MemberUnique(u: Tree, k: string)
    requires u.Object? && UniqueNames(u) && Get(u.members, k).Some?
    ensures UniqueNames(Get(u.members, k).value)
  {
    var i :| 0 <= i < |u.members| && u.members[i] == Member(k, Get(u.members, k).value);
  }

  /** An object whose names are exactly `keys`, each once. */
  predicate KeysExactly(u: Tree, keys: seq<string>) {
    && u.Object? && |u.members| == |keys|
    && forall k | k in keys :: Get(u.members, k).Some?
  }

  /** The string member `k`, or "" (which no check below accepts). */
  function StrOf(u: Tree, k: string): string
    requires u.Object?
  {
    match Get(u.members, k) case Some(Str(s)) => s case _ => ""
  }

  /** The member `k` as a non-negative safe integer. */
  function IntOf(u: Tree, k: string): Option<nat>
    requires u.Object?
  {
    match Get(u.members, k)
    case Some(Number(x)) => if D.IsCanonical(x) && D.Value(x) <= MAX_SAFE then Some(D.Value(x)) else None
    case _ => None
  }

  function ParseLocator(u: Tree): Option<Locator> {
    if !KeysExactly(u, LOCATOR_KEYS) then None
    else if !IsLaneKey(StrOf(u, "lane")) || !IsSegmentName(StrOf(u, "segment")) then None
    else if IntOf(u, "offset").None? || IntOf(u, "length").None? || IntOf(u, "length").value < 1 then None
    else if !IsHex64(StrOf(u, "raw_sha256")) then None
    else Some(Locator(StrOf(u, "lane"), StrOf(u, "segment"), IntOf(u, "offset").value,
                      IntOf(u, "length").value, StrOf(u, "raw_sha256")))
  }

  function ParseDescriptor(u: Tree): Option<Descriptor> {
    if !KeysExactly(u, DESCRIPTOR_KEYS) then None
    else if !IsHex64(StrOf(u, "digest")) || !IsDecimal(StrOf(u, "bytes")) then None
    else Some(Descriptor(StrOf(u, "digest"), StrOf(u, "bytes")))
  }

  function ParseAll<T>(us: seq<Tree>, parse: Tree -> Option<T>): Option<seq<T>> {
    if us == [] then Some([])
    else
      var last, front := parse(us[|us| - 1]), ParseAll(us[..|us| - 1], parse);
      if front.None? || last.None? then None else Some(front.value + [last.value])
  }

  /** Structural validation of a parsed marker. */
  function ParseMarker(u: Value): Option<Marker> {
    if !KeysExactly(u, MARKER_KEYS) then None
    else if Get(u.members, "v") != Some(Number("1")) then None
    else if !IsDecimal(StrOf(u, "tx")) then None
    else if !IsHex64(StrOf(u, "previous")) || !IsHex64(StrOf(u, "result_sha256")) then None
    else
      match (Get(u.members, "records"), Get(u.members, "objects"), Get(u.members, "mutation"))
      case (Some(Array(rs)), Some(Array(os)), Some(mutation)) =>
        var records, objects := ParseAll(rs, ParseLocator), ParseAll(os, ParseDescriptor);
        MemberUnique(u, "mutation");
        if records.None? || objects.None? then None
        else Some(Marker(D.Value(StrOf(u, "tx")), StrOf(u, "previous"), records.value, objects.value,
                         mutation, StrOf(u, "result_sha256")))
      case _ => None
  }

  lemma {:induction false} ParseAllInverts<T>(us: seq<Tree>, xs: seq<T>, parse: Tree -> Option<T>)
    requires |us| == |xs| && forall i | 0 <= i < |us| :: parse(us[i]) == Some(xs[i])
    ensures ParseAll(us, parse) == Some(xs)
  {
    if us != [] {
      ParseAllInverts(us[..|us| - 1], xs[..|xs| - 1], parse);
      assert xs == xs[..|xs| - 1] + [xs[|xs| - 1]];
    }
  }

  lemma {:induction false} ParseAllAccepts<T>(us: seq<Tree>, i: nat, parse: Tree -> Option<T>)
    requires i < |us| && ParseAll(us, parse).Some?
    ensures parse(us[i]).Some?
  {
    if i < |us| - 1 {
      ParseAllAccepts(us[..|us| - 1], i, parse);
    }
  }

  lemma {:induction false} ParseAllYields<T>(us: seq<Tree>, parse: Tree -> Option<T>, good: T -> bool)
    requires ParseAll(us, parse).Some?
    requires forall u :: parse(u).Some? ==> good(parse(u).value)
    ensures forall i | 0 <= i < |ParseAll(us, parse).value| :: good(ParseAll(us, parse).value[i])
  {
    if us != [] {
      ParseAllYields(us[..|us| - 1], parse, good);
    }
  }

  /** A marker is accepted from its own JSON exactly when it is well formed, and unchanged. */
  lemma MarkerRoundTrip(m: Marker)
    ensures ParseMarker(MarkerJson(m)).Some? <==> WellFormed(m)
    ensures WellFormed(m) ==> ParseMarker(MarkerJson(m)) == Some(m)
  {
    D.ValueOfPrint(m.tx);
    MarkerMembers(m);
    RecordsRoundTrip(m.records);
    ObjectsRoundTrip(m.objects);
  }

  lemma RecordsRoundTrip(rs: seq<Locator>)
    ensures var parsed := ParseAll(RecordsJson(rs), ParseLocator);
            && (parsed.Some? <==> forall i | 0 <= i < |rs| :: WellFormedLocator(rs[i]))
            && (parsed.Some? ==> parsed == Some(rs))
  {
    forall i | 0 <= i < |rs|
      ensures ParseLocator(RecordsJson(rs)[i]).Some? <==> WellFormedLocator(rs[i])
      ensures WellFormedLocator(rs[i]) ==> ParseLocator(RecordsJson(rs)[i]) == Some(rs[i])
    {
      LocatorRoundTrip(rs[i]);
    }
    if forall i | 0 <= i < |rs| :: WellFormedLocator(rs[i]) {
      ParseAllInverts(RecordsJson(rs), rs, ParseLocator);
    } else {
      var i :| 0 <= i < |rs| && !WellFormedLocator(rs[i]);
      if ParseAll(RecordsJson(rs), ParseLocator).Some? { ParseAllAccepts(RecordsJson(rs), i, ParseLocator); }
    }
  }

  lemma ObjectsRoundTrip(os: seq<Descriptor>)
    ensures var parsed := ParseAll(ObjectsJson(os), ParseDescriptor);
            && (parsed.Some? <==> forall i | 0 <= i < |os| :: WellFormedDescriptor(os[i]))
            && (parsed.Some? ==> parsed == Some(os))
  {
    forall i | 0 <= i < |os|
      ensures ParseDescriptor(ObjectsJson(os)[i]).Some? <==> WellFormedDescriptor(os[i])
      ensures WellFormedDescriptor(os[i]) ==> ParseDescriptor(ObjectsJson(os)[i]) == Some(os[i])
    {
      DescriptorRoundTrip(os[i]);
    }
    if forall i | 0 <= i < |os| :: WellFormedDescriptor(os[i]) {
      ParseAllInverts(ObjectsJson(os), os, ParseDescriptor);
    } else {
      var i :| 0 <= i < |os| && !WellFormedDescriptor(os[i]);
      if ParseAll(ObjectsJson(os), ParseDescriptor).Some? { ParseAllAccepts(ObjectsJson(os), i, ParseDescriptor); }
    }
  }

  ghost predicate Distinct(keys: seq<string>) {
    forall i, j | 0 <= i < j < |keys| :: keys[i] != keys[j]
  }

  lemma KeysAreDistinct()
    ensures Distinct(MARKER_KEYS) && Distinct(LOCATOR_KEYS) && Distinct(DESCRIPTOR_KEYS)
  {
    assert "records"[0] != "objects"[0] && "previous"[0] != "mutation"[0];
    assert "offset"[0] != "length"[0];
  }

  /** An object with distinct keys is closed over them and yields each key's own value. */
  lemma ClosedObject(keys: seq<string>, values: seq<Tree>)
    requires |keys| == |values| && Distinct(keys)
    ensures var u := Object(Zip(keys, values));
            && KeysExactly(u, keys)
            && forall i | 0 <= i < |keys| :: Get(u.members, keys[i]) == Some(values[i])
  {
    forall i | 0 <= i < |keys| ensures Get(Zip(keys, values), keys[i]) == Some(values[i]) {
      GetNth(Zip(keys, values), i);
    }
  }

  lemma MarkerValueAt(m: Marker, i: nat)
    requires i < |MARKER_KEYS|
    ensures Get(MarkerJson(m).members, MARKER_KEYS[i]) == Some(MarkerValues(m)[i])
  {
    KeysAreDistinct();
    ClosedObject(MARKER_KEYS, MarkerValues(m));
  }

  lemma MarkerMembers(m: Marker)
    ensures var u := MarkerJson(m);
            && KeysExactly(u, MARKER_KEYS)
            && Get(u.members, "v") == Some(Number("1")) && StrOf(u, "tx") == D.Print(m.tx)
            && StrOf(u, "previous") == m.previous && StrOf(u, "result_sha256") == m.result
            && Get(u.members, "records") == Some(Array(RecordsJson(m.records)))
            && Get(u.members, "objects") == Some(Array(ObjectsJson(m.objects)))
            && Get(u.members, "mutation") == Some(m.mutation)
  {
    hide Get, Distinct, KeysExactly, RecordsJson, ObjectsJson, Zip, D.Print;
    KeysAreDistinct();
    ClosedObject(MARKER_KEYS, MarkerValues(m));
    MarkerValueAt(m, 0);
    MarkerValueAt(m, 1);
    MarkerValueAt(m, 2);
    MarkerValueAt(m, 3);
    MarkerValueAt(m, 4);
    MarkerValueAt(m, 5);
    MarkerValueAt(m, 6);
  }

  lemma LocatorMembers(r: Locator)
    ensures var u := LocatorJson(r);
            && KeysExactly(u, LOCATOR_KEYS)
            && StrOf(u, "lane") == r.lane && StrOf(u, "segment") == r.segment && StrOf(u, "raw_sha256") == r.rawSha
            && Get(u.members, "offset") == Some(Number(D.Print(r.offset)))
            && Get(u.members, "length") == Some(Number(D.Print(r.length)))
  {
    KeysAreDistinct();
    ClosedObject(LOCATOR_KEYS, LocatorValues(r));
    var ms, ks := LocatorJson(r).members, LOCATOR_KEYS;
    assert Get(ms, ks[0]) == Some(LocatorValues(r)[0]) && Get(ms, ks[1]) == Some(LocatorValues(r)[1]);
    assert Get(ms, ks[2]) == Some(LocatorValues(r)[2]) && Get(ms, ks[3]) == Some(LocatorValues(r)[3]);
    assert Get(ms, ks[4]) == Some(LocatorValues(r)[4]);
  }

  lemma LocatorRoundTrip(r: Locator)
    ensures ParseLocator(LocatorJson(r)).Some? <==> WellFormedLocator(r)
    ensures WellFormedLocator(r) ==> ParseLocator(LocatorJson(r)) == Some(r)
  {
    var u := LocatorJson(r);
    D.ValueOfPrint(r.offset);
    D.ValueOfPrint(r.length);
    LocatorMembers(r);
    assert IntOf(u, "offset") == if r.offset <= MAX_SAFE then Some(r.offset) else None;
    assert IntOf(u, "length") == if r.length <= MAX_SAFE then Some(r.length) else None;
  }

  lemma DescriptorRoundTrip(o: Descriptor)
    ensures ParseDescriptor(DescriptorJson(o)).Some? <==> WellFormedDescriptor(o)
    ensures WellFormedDescriptor(o) ==> ParseDescriptor(DescriptorJson(o)) == Some(o)
  {
    KeysAreDistinct();
    ClosedObject(DESCRIPTOR_KEYS, [Str(o.digest), Str(o.bytes)]);
    var ms, ks := DescriptorJson(o).members, DESCRIPTOR_KEYS;
    assert Get(ms, ks[0]) == Some(Str(o.digest)) && Get(ms, ks[1]) == Some(Str(o.bytes));
  }

  lemma {:induction false} GetNth(members: seq<Member<string>>, i: nat)
    requires i < |members| && DistinctNames(members)
    ensures Get(members, members[i].name) == Some(members[i].value)
    decreases i
  {
    if i > 0 {
      GetNth(members[1..], i - 1);
    }
  }

  /** Whatever is accepted as a marker is well formed. */
  lemma ParsedIsWellFormed(u: Value)
    requires ParseMarker(u).Some?
    ensures WellFormed(ParseMarker(u).value)
  {
    ParseAllYields(Get(u.members, "records").value.items, ParseLocator, WellFormedLocator);
    ParseAllYields(Get(u.members, "objects").value.items, ParseDescriptor, WellFormedDescriptor);
  }
}
