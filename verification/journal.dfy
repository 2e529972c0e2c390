/** The hash-chained commit journal: appending, verification and tail repair. */
module Journal {
  import opened Lines
  import opened Markers
  import opened Options
  import D = Decimals

  /** What one raw line holds: not JSON, JSON that is no marker (with its `tx`, if that is a decimal
      string), or a marker. */
  datatype Reading = NotJson | NotMarker(tx: Option<string>) | Good(marker: Marker)

  /** The all-zero genesis hash, SHA-256 as 64 hexadecimal digits, a marker as the bytes of its JSON,
      and the reading of a raw line. */
  datatype Codec = Codec(genesis: string, sha: Bytes -> string, encode: Marker -> Bytes, read: Bytes -> Reading)

  /** The line a marker is appended as. */
  function Line(c: Codec, m: Marker): Bytes { c.encode(m) + [LF] }

  /** Hashes have their form, and a line written for a marker is one line that reads back. */
  ghost predicate Faithful(c: Codec) {
    && IsHex64(c.genesis) && (forall b :: IsHex64(c.sha(b)))
    && forall m | WellFormed(m) :: LF !in c.encode(m) && c.read(Line(c, m)) == Good(m)
  }

  /** Parsed JSON, checked against the closed marker schema. */
  function ReadTree(parsed: Option<Value>): Reading {
    match parsed
    case None => NotJson
    case Some(u) =>
      var m := ParseMarker(u);
      if m.Some? then Good(m.value)
      else NotMarker(if u.Object? && IsDecimal(StrOf(u, "tx")) then Some(StrOf(u, "tx")) else None)
  }

  function WithoutFeed(line: Bytes): Bytes {
    if line != [] && line[|line| - 1] == LF then line[..|line| - 1] else line
  }

  /** The journal's own codec, over a JSON printer and a JSON parser of byte strings. */
  function JsonCodec(genesis: string, sha: Bytes -> string, stringify: Value -> Bytes,
                     parse: Bytes -> Option<Value>): Codec {
    Codec(genesis, sha, m => stringify(MarkerJson(m)), line => ReadTree(parse(WithoutFeed(line))))
  }

  /** It is faithful whenever the printer writes no raw line feed and the parser inverts it. */
  lemma JsonCodecIsFaithful(genesis: string, sha: Bytes -> string, stringify: Value -> Bytes,
                            parse: Bytes -> Option<Value>)
    requires IsHex64(genesis) && forall b :: IsHex64(sha(b))
    requires forall m :: LF !in stringify(MarkerJson(m)) && parse(stringify(MarkerJson(m))) == Some(MarkerJson(m))
    ensures Faithful(JsonCodec(genesis, sha, stringify, parse))
  {
    var c := JsonCodec(genesis, sha, stringify, parse);
    forall m | WellFormed(m) ensures c.read(Line(c, m)) == Good(m) {
      MarkerRoundTrip(m);
      assert WithoutFeed(Line(c, m)) == c.encode(m);
    }
  }

  function HashAfter(c: Codec, lines: seq<Bytes>): string {
    if lines == [] then c.genesis else c.sha(lines[|lines| - 1])
  }

  function TxAfter(markers: seq<Marker>): Option<nat> {
    if markers == [] then None else Some(markers[|markers| - 1].tx)
  }

  datatype Fault = Unparseable | Schema | PreviousLink | NonMonotonic | BadGenesis

  /** Outcome of checking complete lines. `at` names the first marker of the unverifiable region,
      by tx or as "#1". */
  datatype Verdict =
    | Verified(markers: seq<Marker>)
    | Corrupt(at: string, fault: Fault, markers: seq<Marker>)

  function DropLast(markers: seq<Marker>): seq<Marker> {
    if markers == [] then [] else markers[..|markers| - 1]
  }

  function TxBefore(markers: seq<Marker>): string {
    if markers == [] then "#1" else D.Print(markers[|markers| - 1].tx)
  }

  /** The check of one more line after lines that verified. A line vouches for its predecessor, so
      when it cannot be checked its predecessor is the first unverifiable one. */
  function CheckNext(c: Codec, lines: seq<Bytes>, markers: seq<Marker>, line: Bytes): (v: Verdict)
    ensures v.Corrupt? ==> v.markers <= markers
    ensures v.Verified? ==> |v.markers| == |markers| + 1
  {
    match c.read(line)
    case NotJson => Corrupt(TxBefore(markers), Unparseable, DropLast(markers))
    case NotMarker(tx) =>
      Corrupt(if markers == [] && tx.Some? then tx.value else TxBefore(markers), Schema, DropLast(markers))
    case Good(m) =>
      if m.previous != HashAfter(c, lines) then
        Corrupt(if markers == [] then D.Print(m.tx) else TxBefore(markers), PreviousLink, DropLast(markers))
      else if markers != [] && m.tx <= markers[|markers| - 1].tx then
        Corrupt(D.Print(m.tx), NonMonotonic, markers)
      else if markers == [] && m.tx != 1 then
        Corrupt(D.Print(m.tx), BadGenesis, [])
      else
        Verified(markers + [m])
  }

  /** Lines are checked in order up to the first fault. */
  function Check(c: Codec, lines: seq<Bytes>): (v: Verdict)
    requires AllLines(lines)
    ensures |v.markers| <= |lines| && (v.Verified? ==> |v.markers| == |lines|)
  {
    if lines == [] then Verified([])
    else
      var front, line := lines[..|lines| - 1], lines[|lines| - 1];
      var before := Check(c, front);
      if before.Verified? then CheckNext(c, front, before.markers, line) else before
  }

  // ---------- the journal's state and its two steps ----------

  datatype StoreError = ReadOnlyError | CorruptError | ChainMismatch | WriteFailed
  datatype Outcome<+T> = Done(value: T) | Threw(error: StoreError)
  datatype Evidence = Evidence(at: string, fault: Fault)
  datatype Fields = Fields(records: seq<Locator>, objects: seq<Descriptor>, mutation: Value, result: string)
  datatype Head = Head(tx: Option<nat>, hash: string)
  datatype VerifyResult =
    | OkResult(markers: seq<Marker>, torn: Option<Bytes>)
    | ReadOnlyResult(at: string, fault: Fault, markers: seq<Marker>)

  /** `commits.jsonl`, if it exists, the quarantined evidence, and what the process remembers. */
  datatype State = State(file: Option<Bytes>, quarantine: seq<Bytes>,
                         head: Head, headKnown: bool, readOnly: Option<Evidence>)

  function Content(s: State): Bytes { if s.file.Some? then s.file.value else [] }

  function NextTx(s: State): nat { if s.head.tx.None? then 1 else s.head.tx.value + 1 }

  /** What a new process knows of an existing file. */
  function Opened(c: Codec, file: Option<Bytes>, quarantine: seq<Bytes>): State {
    State(file, quarantine, Head(None, c.genesis), false, None)
  }

  function Refusal(s: State, m: Marker): Option<StoreError> {
    if !s.headKnown then Some(CorruptError)
    else if s.readOnly.Some? then Some(ReadOnlyError)
    else if m.tx != NextTx(s) || m.previous != s.head.hash then Some(ChainMismatch)
    else if !WellFormed(m) then Some(CorruptError)
    else None
  }

  /** A marker that extends a known, writable head is appended; any other changes nothing. */
  function AfterAppend(c: Codec, s: State, m: Marker): (Outcome<Head>, State) {
    if Refusal(s, m).Some? then (Threw(Refusal(s, m).value), s)
    else
      var head := Head(Some(m.tx), c.sha(Line(c, m)));
      (Done(head), s.(file := Some(Content(s) + Line(c, m)), head := head))
  }

  /** What is in the file of a line whose write failed after n bytes. */
  function Part(line: Bytes, n: nat): Bytes { if n < |line| then line[..n] else line }

  /** The write or the flush of an append throws, with some bytes of the line in the file; the head stays. */
  function AfterFailure(c: Codec, s: State, m: Marker, written: nat): (Outcome<Head>, State) {
    if Refusal(s, m).Some? then (Threw(Refusal(s, m).value), s)
    else (Threw(WriteFailed), s.(file := Some(Content(s) + Part(Line(c, m), written))))
  }

  /** An append, with what becomes of its write: `fails` holds the bytes written when it throws. */
  function AfterWrite(c: Codec, s: State, m: Marker, fails: Option<nat>): (Outcome<Head>, State) {
    if fails.None? then AfterAppend(c, s, m) else AfterFailure(c, s, m, fails.value)
  }

  function Torn(tail: Bytes): Option<Bytes> { if tail == [] then None else Some(tail) }

  /** The bytes after the last line feed moved from the file to quarantine. */
  function Repaired(s: State, cut: Cut): State {
    s.(file := Some(Join(cut.lines)), quarantine := s.quarantine + if cut.tail == [] then [] else [cut.tail])
  }

  /** The head, and the read-only evidence, that a verdict leaves. */
  function Settled(s: State, verdict: Verdict, hash: string, torn: Option<Bytes>): (VerifyResult, State) {
    var known := s.(head := Head(TxAfter(verdict.markers), hash), headKnown := true);
    match verdict
    case Verified(ms) => (OkResult(ms, torn), known.(readOnly := None))
    case Corrupt(at, fault, ms) => (ReadOnlyResult(at, fault, ms), known.(readOnly := Some(Evidence(at, fault))))
  }

  /** The verdict on the complete lines and the hash of the last one it leaves verified. */
  function Judged(c: Codec, s: State, lines: seq<Bytes>, torn: Option<Bytes>): (VerifyResult, State)
    requires AllLines(lines)
  {
    var verdict := Check(c, lines);
    Settled(s, verdict, HashAfter(c, lines[..|verdict.markers|]), torn)
  }

  ghost function AfterVerify(c: Codec, s: State): (VerifyResult, State) {
    var cut := Split(Content(s));
    SplitJoins(Content(s));
    if Content(s) == [] then (OkResult([], None), s.(head := Head(None, c.genesis), headKnown := true))
    else Judged(c, Repaired(s, cut), cut.lines, Torn(cut.tail))
  }

  // ---------- the journal object ----------

  class Journal {
    const codec: Codec
    var file: Option<Bytes>
    var quarantine: seq<Bytes>
    var headTx: Option<nat>
    var headHash: string
    var headKnown: bool
    var readOnly: Option<Evidence>

    constructor (codec: Codec, file: Option<Bytes>, quarantine: seq<Bytes>)
      ensures this.codec == codec && Now() == Opened(codec, file, quarantine)
    {
      this.codec, this.file, this.quarantine := codec, file, quarantine;
      headTx, headHash, headKnown, readOnly := None, codec.genesis, false, None;
    }

    ghost function Now(): State
      reads this
    {
      State(file, quarantine, Head(headTx, headHash), headKnown, readOnly)
    }

    /** Fills `tx` and `previous` from the head. */
    method NextMarker(fields: Fields) returns (r: Outcome<Marker>)
      ensures r == if Now().headKnown
                   then Done(Marker(NextTx(Now()), Now().head.hash, fields.records, fields.objects, fields.mutation,
                                    fields.result))
                   else Threw(CorruptError)
    {
      if !headKnown { return Threw(CorruptError); }
      var tx := if headTx.None? then 1 else headTx.value + 1;
      return Done(Marker(tx, headHash, fields.records, fields.objects, fields.mutation, fields.result));
    }

    /** Appends a marker, which must extend the head. The write may throw after some bytes. */
    method AppendSync(marker: Marker, fails: Option<nat>) returns (r: Outcome<Head>)
      modifies this
      ensures (r, Now()) == AfterWrite(codec, old(Now()), marker, fails)
    {
      if !headKnown { return Threw(CorruptError); }
      if readOnly.Some? { return Threw(ReadOnlyError); }
      var expected := if headTx.None? then 1 else headTx.value + 1;
      if marker.tx != expected || marker.previous != headHash { return Threw(ChainMismatch); }
      // `parseMarker` refuses a marker exactly when it is not well formed: MarkerRoundTrip.
      if !WellFormed(marker) { return Threw(CorruptError); }
      var line := codec.encode(marker) + [LF];
      file := Some((if file.Some? then file.value else []) + if fails.Some? then Part(line, fails.value) else line);
      if fails.Some? { return Threw(WriteFailed); }
      headTx, headHash := Some(marker.tx), codec.sha(line);
      return Done(Head(headTx, headHash));
    }

    /** Appends after making sure the head is known. */
    method Append(marker: Marker, fails: Option<nat>) returns (r: Outcome<Head>)
      modifies this
      ensures var s := old(Now());
              (r, Now()) == AfterWrite(codec, if s.headKnown then s else AfterVerify(codec, s).1, marker, fails)
    {
      if !headKnown { var _ := Verify(); }
      r := AppendSync(marker, fails);
    }

    /** Scans the file: a torn tail goes to quarantine, the complete lines are checked in order,
        and committed corruption is never repaired. */
    method Verify() returns (r: VerifyResult)
      modifies this
      ensures (r, Now()) == AfterVerify(codec, old(Now()))
    {
      var buf := if file.Some? then file.value else [];
      SplitJoins(buf);
      if buf == [] {
        headTx, headHash, headKnown := None, codec.genesis, true;
        return OkResult([], None);
      }
      var lines, start := CutLines(buf);
      var torn := QuarantineTail(buf, lines, start);
      var verdict, hash := Assess(codec, lines);
      r := Conclude(verdict, hash, torn);
    }

    /** Moves the bytes after the last line feed, if any, to quarantine. */
    method QuarantineTail(buf: Bytes, ghost lines: seq<Bytes>, start: nat) returns (torn: Option<Bytes>)
      requires start <= |buf| && Split(buf) == Cut(lines, buf[start..]) && file == Some(buf)
      modifies this`file, this`quarantine
      ensures Now() == Repaired(old(Now()), Split(buf)) && torn == Torn(Split(buf).tail)
    {
      TruncatedAt(buf, start);
      if start < |buf| {
        quarantine := quarantine + [buf[start..]];
        file := Some(buf[..start]);
        return Some(buf[start..]);
      }
      assert buf[..start] == buf;
      return None;
    }

    /** Records the verdict and the head it leaves. */
    method Conclude(verdict: Verdict, hash: string, torn: Option<Bytes>) returns (r: VerifyResult)
      modifies this`readOnly, this`headTx, this`headHash, this`headKnown
      ensures (r, Now()) == Settled(old(Now()), verdict, hash, torn)
    {
      match verdict {
        case Corrupt(at, fault, prefix) =>
          r := FailReadOnly(at, fault, prefix, hash);
        case Verified(markers) =>
          headTx := if markers == [] then None else Some(markers[|markers| - 1].tx);
          headHash := hash;
          readOnly, headKnown := None, true;
          r := OkResult(markers, torn);
      }
    }

    /** Records the fault and the head of the verified prefix. */
    method FailReadOnly(at: string, fault: Fault, prefix: seq<Marker>, hash: string) returns (r: VerifyResult)
      modifies this`readOnly, this`headTx, this`headHash, this`headKnown
      ensures r == ReadOnlyResult(at, fault, prefix)
      ensures Now() == old(Now()).(head := Head(TxAfter(prefix), hash), headKnown := true,
                                   readOnly := Some(Evidence(at, fault)))
    {
      readOnly := Some(Evidence(at, fault));
      headTx := if prefix == [] then None else Some(prefix[|prefix| - 1].tx);
      headHash := hash;
      headKnown := true;
      return ReadOnlyResult(at, fault, prefix);
    }

    /** The verdict on the complete lines, and the hash of the last line it leaves verified. */
    static method Assess(codec: Codec, lines: seq<Bytes>) returns (verdict: Verdict, hash: string)
      requires AllLines(lines)
      ensures verdict == Check(codec, lines) && hash == HashAfter(codec, lines[..|verdict.markers|])
    {
      var hashes;
      verdict, hashes := Scan(codec, lines);
      HeadHash(codec, lines, hashes, |verdict.markers|);
      var kept := hashes[..|verdict.markers|];
      hash := if kept == [] then codec.genesis else kept[|kept| - 1];
    }

    /** Splits into raw lines, each keeping its line feed, and finds where the tail starts. */
    static method CutLines(buf: Bytes) returns (lines: seq<Bytes>, start: nat)
      ensures start <= |buf| && Split(buf) == Cut(lines, buf[start..])
    {
      lines, start := [], 0;
      for i := 0 to |buf|
        invariant start <= i
        invariant Split(buf[..i]) == Cut(lines, buf[start..i])
      {
        assert buf[..i + 1][..i] == buf[..i];
        assert buf[start..i + 1] == buf[start..i] + [buf[i]];
        if buf[i] == LF {
          lines := lines + [buf[start..i + 1]];
          start := i + 1;
        }
      }
      assert buf[..|buf|] == buf;
    }

    /** The checks of one line, of which `prevHash` is the hash its `previous` must match. */
    static method CheckLine(codec: Codec, ghost front: seq<Bytes>, markers: seq<Marker>, prevHash: string, line: Bytes)
      returns (verdict: Verdict)
      requires prevHash == HashAfter(codec, front)
      ensures verdict == CheckNext(codec, front, markers, line)
    {
      var i := |markers|;
      var cut := if i == 0 then 0 else i - 1;
      var before := if i == 0 then "#1" else D.Print(markers[i - 1].tx);
      assert markers[..cut] == DropLast(markers);
      match codec.read(line) {
        case NotJson => return Corrupt(before, Unparseable, markers[..cut]);
        case NotMarker(tx) =>
          return Corrupt(if i == 0 && tx.Some? then tx.value else before, Schema, markers[..cut]);
        case Good(m) =>
          if m.previous != prevHash {
            return Corrupt(if i == 0 then D.Print(m.tx) else before, PreviousLink, markers[..cut]);
          }
          if i > 0 && m.tx <= markers[i - 1].tx { return Corrupt(D.Print(m.tx), NonMonotonic, markers); }
          if i == 0 && m.tx != 1 { return Corrupt(D.Print(m.tx), BadGenesis, []); }
          return Verified(markers + [m]);
      }
    }

    /** Checks the complete lines in order; `hashes` are those of the lines that passed. */
    static method Scan(codec: Codec, lines: seq<Bytes>) returns (verdict: Verdict, hashes: seq<string>)
      requires AllLines(lines)
      ensures verdict == Check(codec, lines)
      ensures |verdict.markers| <= |hashes| && (verdict.Verified? ==> |hashes| == |lines| == |verdict.markers|)
      ensures AreHashes(codec, lines, hashes)
    {
      hashes, verdict := [], Verified([]);
      var prevHash := codec.genesis;
      for i := 0 to |lines|
        invariant verdict.Verified? && |verdict.markers| == |hashes| == i
        invariant Check(codec, lines[..i]) == verdict
        invariant prevHash == if i == 0 then codec.genesis else hashes[i - 1]
        invariant AreHashes(codec, lines, hashes)
      {
        var line := lines[i];
        CheckStep(codec, lines, i);
        CheckStops(codec, lines, i + 1);
        verdict := CheckLine(codec, lines[..i], verdict.markers, prevHash, line);
        if verdict.Corrupt? { return; }
        MoreHashes(codec, lines, hashes);
        hashes := hashes + [codec.sha(line)];
        prevHash := hashes[i];
      }
      assert lines[..|lines|] == lines;
    }
  }

  /** The bytes up to the last line feed are the complete lines. */
  lemma TruncatedAt(buf: Bytes, start: nat)
    requires start <= |buf| && Split(buf).tail == buf[start..]
    ensures buf[..start] == Join(Split(buf).lines)
  {
    SplitJoins(buf);
    assert buf == buf[..start] + buf[start..];
    assert |Join(Split(buf).lines)| == start;
    assert (Join(Split(buf).lines) + Split(buf).tail)[..start] == Join(Split(buf).lines);
  }

  ghost predicate AreHashes(c: Codec, lines: seq<Bytes>, hashes: seq<string>) {
    |hashes| <= |lines| && forall j | 0 <= j < |hashes| :: hashes[j] == c.sha(lines[j])
  }

  lemma MoreHashes(c: Codec, lines: seq<Bytes>, hashes: seq<string>)
    requires AreHashes(c, lines, hashes) && |hashes| < |lines|
    ensures AreHashes(c, lines, hashes + [c.sha(lines[|hashes|])])
  {}

  /** The last kept hash is that of the last kept line. */
  lemma HeadHash(c: Codec, lines: seq<Bytes>, hashes: seq<string>, n: nat)
    requires n <= |hashes| && AreHashes(c, lines, hashes)
    ensures HashAfter(c, lines[..n]) == if n == 0 then c.genesis else hashes[..n][n - 1]
  {}

  lemma CheckStep(c: Codec, lines: seq<Bytes>, i: nat)
    requires i < |lines| && AllLines(lines)
    ensures var before := Check(c, lines[..i]);
            Check(c, lines[..i + 1])
            == if before.Verified? then CheckNext(c, lines[..i], before.markers, lines[i]) else before
  {
    assert lines[..i + 1][..i] == lines[..i];
  }

  /** A fault ends the scan. */
  lemma {:induction false} CheckStops(c: Codec, lines: seq<Bytes>, n: nat)
    requires n <= |lines| && AllLines(lines)
    ensures Check(c, lines[..n]).Corrupt? ==> Check(c, lines) == Check(c, lines[..n])
    decreases |lines| - n
  {
    if n < |lines| {
      CheckStep(c, lines, n);
      CheckStops(c, lines, n + 1);
    } else {
      assert lines[..n] == lines;
    }
  }
}
