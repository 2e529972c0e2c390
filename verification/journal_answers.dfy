/** What a verification of the journal answers, for any file. */
module JournalAnswers {
  import opened Journal
  import opened JournalProofs
  import opened Lines
  import opened Markers
  import opened Options
  import opened Sequences
  import D = Decimals

  /** What names a line in the evidence: its transaction, or "#1" when it has none that can be read. */
  function NameOf(r: Reading): string {
    match r
    case Good(m) => D.Print(m.tx)
    case NotMarker(Some(tx)) => tx
    case _ => "#1"
  }

  /** Line j breaks the chain in this way, behind lines that verify; it takes with it the line before it, which
      nothing vouches for any more, unless the chain as such is whole. */
  ghost predicate Breaks(c: Codec, lines: seq<Bytes>, j: nat, fault: Fault, kept: nat)
    requires j < |lines|
  {
    var linked := c.read(lines[j]).Good?
                  && c.read(lines[j]).marker.previous == if j == 0 then c.genesis else c.sha(lines[j - 1]);
    && kept == (if linked || j == 0 then j else j - 1)
    && match fault
       case Unparseable => c.read(lines[j]).NotJson?
       case Schema => c.read(lines[j]).NotMarker?
       case PreviousLink => c.read(lines[j]).Good? && !linked
       case NonMonotonic =>
         && linked && j > 0 && c.read(lines[j - 1]).Good?
         && c.read(lines[j]).marker.tx <= c.read(lines[j - 1]).marker.tx
       case BadGenesis => linked && j == 0 && c.read(lines[0]).marker.tx != 1
  }

  lemma LineBreaks(c: Codec, lines: seq<Bytes>, j: nat)
    requires AllLines(lines) && j < |lines| && Check(c, lines[..j]).Verified?
    requires var v := CheckNext(c, lines[..j], Check(c, lines[..j]).markers, lines[j]); v.Corrupt?
    ensures var v := CheckNext(c, lines[..j], Check(c, lines[..j]).markers, lines[j]);
            Breaks(c, lines, j, v.fault, |v.markers|) && v.at == NameOf(c.read(lines[|v.markers|]))
  {
    if j > 0 {
      assert lines[..j][j - 1] == lines[j - 1];
      VerifiedLink(c, lines[..j], j - 1);
    }
  }

  /** For every sequence of lines that does not verify: there is a first line that breaks the chain, everything
      before it verifies, the fault says how it breaks it, and the evidence names the first line not vouched for. */
  lemma {:induction false} EvidenceNamesTheBreak(c: Codec, lines: seq<Bytes>) returns (j: nat)
    requires AllLines(lines) && Check(c, lines).Corrupt?
    ensures var v := Check(c, lines);
            && j < |lines| && Check(c, lines[..j]).Verified? && v.markers <= Check(c, lines[..j]).markers
            && |v.markers| < |lines|
            && Breaks(c, lines, j, v.fault, |v.markers|) && v.at == NameOf(c.read(lines[|v.markers|]))
  {
    j := 0;
    assert lines[..0] == [];
    while Check(c, lines[..j + 1]).Verified?
      invariant j < |lines| && Check(c, lines[..j]).Verified?
      decreases |lines| - j
    {
      hide Check;
      j := j + 1;
      if j == |lines| { assert lines[..j] == lines; }
    }
    hide CheckNext, Breaks;
    CheckStep(c, lines, j);
    CheckStops(c, lines, j + 1);
    LineBreaks(c, lines, j);
  }

  /** Line i reads as marker i and follows the line before it: the first has tx 1 and names the genesis hash, any
      other a greater tx and the hash of the line before. */
  predicate Chained(c: Codec, lines: seq<Bytes>, ms: seq<Marker>, i: nat)
    requires i < |lines| == |ms|
  {
    && c.read(lines[i]) == Good(ms[i])
    && if i == 0 then ms[0].tx == 1 && ms[0].previous == c.genesis
       else ms[i - 1].tx < ms[i].tx && ms[i].previous == c.sha(lines[i - 1])
  }

  ghost predicate AllChained(c: Codec, lines: seq<Bytes>, ms: seq<Marker>) {
    |lines| == |ms| && forall i | 0 <= i < |lines| :: Chained(c, lines, ms, i)
  }

  lemma FrontChained(c: Codec, lines: seq<Bytes>, ms: seq<Marker>)
    requires |lines| == |ms| > 0
    ensures var n := |lines| - 1;
            AllChained(c, lines, ms) <==> AllChained(c, lines[..n], ms[..n]) && Chained(c, lines, ms, n)
  {
    var n := |lines| - 1;
    assert forall i | 0 <= i < n :: Chained(c, lines, ms, i) <==> Chained(c, lines[..n], ms[..n], i);
  }

  lemma NextChained(c: Codec, lines: seq<Bytes>, ms: seq<Marker>)
    requires |lines| == |ms| > 0
    ensures var n := |lines| - 1;
            CheckNext(c, lines[..n], ms[..n], lines[n]) == Verified(ms) <==> Chained(c, lines, ms, n)
  {
    Snoc(ms);
    var n := |lines| - 1;
    if c.read(lines[n]).Good? { Unsnoc(ms[..n], c.read(lines[n]).marker); }
  }

  /** Lines verify with these markers exactly when they are chained. */
  lemma {:induction false} VerifiesIff(c: Codec, lines: seq<Bytes>, ms: seq<Marker>)
    requires AllLines(lines)
    ensures Check(c, lines) == Verified(ms) <==> AllChained(c, lines, ms)
  {
    if lines == [] {
    } else if |ms| == |lines| {
      var n := |lines| - 1;
      FrontChained(c, lines, ms);
      NextChained(c, lines, ms);
      VerifiesIff(c, lines[..n], ms[..n]);
      hide AllChained, Chained, CheckNext;
      if Check(c, lines) == Verified(ms) {
        var front := Check(c, lines[..n]);
        PassedNext(c, lines[..n], front.markers, lines[n]);
        Unsnoc(front.markers, c.read(lines[n]).marker);
      }
    }
  }

  /** For every file: what is not a complete line goes from the file to quarantine, nothing else does, nothing is
      lost, and an OK answer carries it. */
  lemma TornIsQuarantined(c: Codec, s: State)
    ensures var (r, t) := AfterVerify(c, s);
            var torn := Split(Content(s)).tail;
            && LF !in torn && Content(t) + torn == Content(s) && Split(Content(t)).tail == []
            && t.quarantine == s.quarantine + (if torn == [] then [] else [torn])
            && (r.OkResult? ==> r.torn == if torn == [] then None else Some(torn))
  {
    hide Split, Check, HashAfter, AllLines, Join, IsLine, TxAfter;
    SplitJoins(Content(s));
    var lines := Split(Content(s)).lines;
    SplitOfJoin(lines, []);
    AddNil(Join(lines));
    NothingSplits();
  }

  lemma NothingSplits()
    ensures Split([]) == Cut([], [])
  {}

  /** For every file that is not empty: after an OK answer, and whatever was known before, the marker that follows
      the ones verified is appended. */
  lemma VerifiedIsWritable(c: Codec, s: State, m: Marker)
    requires AfterVerify(c, s).0.OkResult? && Content(s) != []
    ensures var (r, t) := AfterVerify(c, s);
            var lines := Split(Content(s)).lines;
            WellFormed(m) && m.previous == (if lines == [] then c.genesis else c.sha(lines[|lines| - 1]))
            && m.tx == (if r.markers == [] then 1 else r.markers[|r.markers| - 1].tx + 1) ==>
              AfterAppend(c, t, m).0.Done?
  {
    var lines := Split(Content(s)).lines;
    SplitJoins(Content(s));
    assert lines[..|lines|] == lines;
  }
}
