/** The transcript projection: events of one run, in any order, as one ordered list of entries. */
module Transcript {
  import opened JsonValues
  import opened Options
  import opened Sequences
  import opened Texts

  type Tree = Json<string>

  datatype Belief = Belief(kind: string, text: string, confidence: string, id: string, evidence: Option<string>)

  /** `message` is None when the payload's message is no string. */
  datatype Body =
    | ToolObserved(name: string, arguments: Tree)
    | BeliefExtracted(belief: Belief)
    | AdapterError(cause: string, message: Option<string>)
    | SessionRecorded(path: string)
    | Other

  datatype Event = Event(run: string, number: int, body: Body)

  datatype Entry =
    | ToolCall(name: string, arguments: Tree)
    | BeliefEntry(belief: Belief)
    | Final(output: Tree)
    | Error(message: Option<string>)

  /** One item of a recorded session. */
  datatype Item = Item(isOutput: bool, content: Option<Tree>)

  /** Recorded sessions by path: None when the file is missing or not of the expected form. */
  type Files = string -> Option<seq<Item>>

  // ---------- one run, in order ----------

  function Scoped(events: seq<Event>, run: string): seq<Event> {
    if events == [] then []
    else Scoped(events[..|events| - 1], run) + if events[|events| - 1].run == run then [events[|events| - 1]] else []
  }

  /** A new event goes behind those that are not later. */
  function Inserted(sorted: seq<Event>, e: Event): seq<Event> {
    if sorted == [] then [e]
    else
      var n := |sorted| - 1;
      if sorted[n].number <= e.number then sorted + [e] else Inserted(sorted[..n], e) + [sorted[n]]
  }

  /** A stable sort by sequence number. */
  function Sorted(events: seq<Event>): seq<Event> {
    if events == [] then [] else Inserted(Sorted(events[..|events| - 1]), events[|events| - 1])
  }

  /** The events of the first event's run, sorted. */
  function InOrder(events: seq<Event>): seq<Event> {
    if events == [] then [] else Sorted(Scoped(events, events[0].run))
  }

  // ---------- the pieces of the projection ----------

  const WORDS: seq<string> := ["child", "spawn", "exec"]

  predicate MentionsAt(text: string, i: nat, word: string) {
    i + |word| <= |text| && Lower(text[i..i + |word|]) == word
  }

  predicate Mentions(text: string, word: string) { exists i | 0 <= i <= |text| :: MentionsAt(text, i, word) }

  predicate MentionsChild(text: string) { exists k | 0 <= k < |WORDS| :: Mentions(text, WORDS[k]) }

  predicate IsChildError(e: Event) {
    && e.body.AdapterError?
    && (MentionsChild(e.body.cause) || MentionsChild(if e.body.message.Some? then e.body.message.value else ""))
  }

  /** The place of the first child error from i on. */
  function FirstError(events: seq<Event>, i: nat): (r: Option<nat>)
    requires i <= |events|
    ensures r.Some? ==> i <= r.value < |events| && IsChildError(events[r.value])
    ensures forall k | i <= k < |events| && (r.None? || k < r.value) :: !IsChildError(events[k])
    decreases |events| - i
  {
    if i == |events| then None else if IsChildError(events[i]) then Some(i) else FirstError(events, i + 1)
  }

  function LastContent(items: seq<Item>): Option<Tree> {
    if items == [] then None
    else
      var last := items[|items| - 1];
      if last.isOutput && last.content.Some? then last.content else LastContent(items[..|items| - 1])
  }

  /** The output of the last recorded session that has one. */
  function LastOutput(files: Files, events: seq<Event>): Tree {
    if events == [] then Object([])
    else
      var last, rest := events[|events| - 1], events[..|events| - 1];
      if !last.body.SessionRecorded? || last.body.path == "" || files(last.body.path).None? then LastOutput(files, rest)
      else
        match LastContent(files(last.body.path).value)
        case Some(v) => v
        case None => LastOutput(files, rest)
  }

  function EntryOf(e: Event, version: nat, terminal: Option<int>): seq<Entry> {
    match e.body
    case ToolObserved(name, arguments) => [ToolCall(name, arguments)]
    case BeliefExtracted(b) =>
      if version != 2 || (terminal.Some? && e.number > terminal.value) then [] else [BeliefEntry(b)]
    case _ => []
  }

  function Entries(events: seq<Event>, version: nat, terminal: Option<int>): seq<Entry> {
    if events == [] then []
    else Entries(events[..|events| - 1], version, terminal) + EntryOf(events[|events| - 1], version, terminal)
  }

  function TerminalOf(events: seq<Event>): Option<int> {
    var k := FirstError(events, 0);
    if k.None? then None else Some(events[k.value].number)
  }

  function LastEntry(files: Files, events: seq<Event>): Entry {
    var k := FirstError(events, 0);
    if k.Some? then Error(events[k.value].body.message) else Final(LastOutput(files, events))
  }

  function Project(files: Files, events: seq<Event>, version: nat): seq<Entry> {
    var scoped := InOrder(events);
    Entries(scoped, version, TerminalOf(scoped)) + [LastEntry(files, scoped)]
  }

  // ---------- the projection as it runs ----------

  method ChildAdapterError(events: seq<Event>) returns (r: Option<Event>)
    ensures var k := FirstError(events, 0); r == if k.None? then None else Some(events[k.value])
  {
    var i := 0;
    while i < |events|
      invariant i <= |events| && FirstError(events, 0) == FirstError(events, i)
    {
      if IsChildError(events[i]) { return Some(events[i]); }
      i := i + 1;
    }
    return None;
  }

  method LastReplayOutput(files: Files, events: seq<Event>) returns (r: Tree)
    ensures r == LastOutput(files, events)
  {
    var i: nat := |events|;
    assert events[..i] == events;
    while i > 0
      invariant i <= |events| && LastOutput(files, events) == LastOutput(files, events[..i])
    {
      i := i - 1;
      assert events[..i + 1][..i] == events[..i];
      var body := events[i].body;
      if !body.SessionRecorded? || body.path == "" { continue; }
      var items := files(body.path);
      if items.None? { continue; }
      var content := LastContent(items.value);
      if content.Some? { return content.value; }
    }
    return Object([]);
  }

  method ProjectTranscript(files: Files, events: seq<Event>, version: nat) returns (entries: seq<Entry>)
    ensures entries == Project(files, events, version)
  {
    hide Sorted, MentionsChild, LastOutput;
    var scoped: seq<Event> := [];
    if events != [] {
      for i := 0 to |events|
        invariant scoped == Scoped(events[..i], events[0].run)
      {
        assert events[..i + 1][..i] == events[..i];
        if events[i].run == events[0].run { scoped := scoped + [events[i]]; }
      }
      assert events[..|events|] == events;
      scoped := Sorted(scoped);
    }
    var error := ChildAdapterError(scoped);
    var terminal := if error.Some? then Some(error.value.number) else None;
    entries := [];
    for i := 0 to |scoped|
      invariant entries == Entries(scoped[..i], version, terminal)
    {
      assert scoped[..i + 1][..i] == scoped[..i];
      match scoped[i].body {
        case ToolObserved(name, arguments) => entries := entries + [ToolCall(name, arguments)];
        case BeliefExtracted(b) =>
          if version == 2 {
            if terminal.Some? && scoped[i].number > terminal.value { continue; }
            entries := entries + [BeliefEntry(b)];
          }
        case _ =>
      }
    }
    assert scoped[..|scoped|] == scoped;
    if error.Some? {
      entries := entries + [Error(error.value.body.message)];
    } else {
      var output := LastReplayOutput(files, scoped);
      entries := entries + [Final(output)];
    }
  }

  // ---------- sorting forgets the order of arrival ----------

  predicate NotAfter(s: seq<Event>, i: nat, j: nat)
    requires i < |s| && j < |s|
  {
    s[i].number <= s[j].number
  }

  ghost predicate Ascending(s: seq<Event>) { forall i, j | 0 <= i < j < |s| :: NotAfter(s, i, j) }

  predicate Apart(s: seq<Event>, i: nat, j: nat)
    requires i < |s| && j < |s|
  {
    s[i].number != s[j].number
  }

  ghost predicate DistinctNumbers(s: seq<Event>) { forall i, j | 0 <= i < j < |s| :: Apart(s, i, j) }

  lemma {:induction false} InsertedSorts(s: seq<Event>, e: Event)
    requires Ascending(s)
    ensures Ascending(Inserted(s, e)) && multiset(Inserted(s, e)) == multiset(s) + multiset{e}
  {
    if s != [] {
      var n := |s| - 1;
      Snoc(s);
      if s[n].number <= e.number {
        PushAscending(s, e);
      } else {
        FrontAscending(s);
        InsertedSorts(s[..n], e);
        forall k | 0 <= k < |Inserted(s[..n], e)| ensures Inserted(s[..n], e)[k].number <= s[n].number {
          InsertedFrom(s[..n], e, k);
        }
        PushAscending(Inserted(s[..n], e), s[n]);
        assert multiset(s) == multiset(s[..n] + [s[n]]);
      }
    }
  }

  lemma InsertedFrom(s: seq<Event>, e: Event, k: nat)
    requires multiset(Inserted(s, e)) == multiset(s) + multiset{e} && k < |Inserted(s, e)|
    ensures Inserted(s, e)[k] == e || Inserted(s, e)[k] in s
  {
    assert Inserted(s, e)[k] in multiset(Inserted(s, e));
  }

  lemma FrontAscending(s: seq<Event>)
    requires Ascending(s) && s != []
    ensures Ascending(s[..|s| - 1]) && forall e | e in s[..|s| - 1] :: e.number <= s[|s| - 1].number
  {
    var n := |s| - 1;
    forall i, j | 0 <= i < j < n ensures NotAfter(s[..n], i, j) { assert NotAfter(s, i, j); }
    forall e | e in s[..n] ensures e.number <= s[n].number {
      var i :| 0 <= i < n && s[i] == e;
      assert NotAfter(s, i, n);
    }
  }

  lemma PushAscending(s: seq<Event>, e: Event)
    requires Ascending(s) && (s != [] ==> s[|s| - 1].number <= e.number)
    ensures Ascending(s + [e])
  {
    var t := s + [e];
    forall i, j | 0 <= i < j < |t| ensures NotAfter(t, i, j) {
      if j < |s| { assert NotAfter(s, i, j); } else if i < |s| - 1 { assert NotAfter(s, i, |s| - 1); }
    }
  }

  lemma {:induction false} SortedSorts(s: seq<Event>)
    ensures Ascending(Sorted(s)) && multiset(Sorted(s)) == multiset(s)
  {
    if s != [] {
      SortedSorts(s[..|s| - 1]);
      InsertedSorts(Sorted(s[..|s| - 1]), s[|s| - 1]);
      Snoc(s);
      assert multiset(s) == multiset(s[..|s| - 1]) + multiset{s[|s| - 1]};
    }
  }

  /** Two ascending lists of the same events with distinct numbers are the same list. */
  lemma {:induction false} SortedUnique(a: seq<Event>, b: seq<Event>)
    requires Ascending(a) && Ascending(b) && multiset(a) == multiset(b) && DistinctNumbers(a)
    ensures a == b
    decreases |a|
  {
    if a == [] {
      assert |multiset(b)| == |b| && |multiset(a)| == 0;
    } else {
      var n := |a| - 1;
      assert |multiset(a)| == |a| && |multiset(b)| == |b|;
      LastIsGreatest(a, b);
      FrontAscending(a);
      FrontAscending(b);
      forall i, j | 0 <= i < j < n ensures Apart(a[..n], i, j) { assert Apart(a, i, j); }
      Snoc(a);
      Snoc(b);
      assert multiset(a[..n]) == multiset(a) - multiset{a[n]};
      assert multiset(b[..n]) == multiset(b) - multiset{b[n]};
      SortedUnique(a[..n], b[..n]);
    }
  }

  lemma LastIsGreatest(a: seq<Event>, b: seq<Event>)
    requires Ascending(a) && Ascending(b) && multiset(a) == multiset(b) && DistinctNumbers(a) && a != [] && |a| == |b|
    ensures a[|a| - 1] == b[|b| - 1]
  {
    var n := |a| - 1;
    assert b[n] in multiset(a) && a[n] in multiset(b);
    var i :| 0 <= i < |a| && a[i] == b[n];
    var j :| 0 <= j < |b| && b[j] == a[n];
    if i < n { assert NotAfter(a, i, n) && Apart(a, i, n); }
    if j < n { assert NotAfter(b, j, n); }
  }

  lemma {:induction false} ScopedMultiset(a: seq<Event>, run: string)
    ensures forall e :: multiset(Scoped(a, run))[e] == if e.run == run then multiset(a)[e] else 0
  {
    if a != [] {
      ScopedMultiset(a[..|a| - 1], run);
      Snoc(a);
      assert multiset(a) == multiset(a[..|a| - 1]) + multiset{a[|a| - 1]};
    }
  }

  lemma SameScope(a: seq<Event>, b: seq<Event>, run: string)
    requires multiset(a) == multiset(b)
    ensures multiset(Scoped(a, run)) == multiset(Scoped(b, run))
  {
    ScopedMultiset(a, run);
    ScopedMultiset(b, run);
  }

  lemma DistinctAnyOrder(s: seq<Event>, t: seq<Event>)
    requires DistinctNumbers(s) && multiset(s) == multiset(t)
    ensures DistinctNumbers(t)
  {
    forall i, j | 0 <= i < j < |t| ensures Apart(t, i, j) {
      if t[i].number == t[j].number {
        assert t[i] in multiset(s) && t[j] in multiset(s);
        SameNumberSame(s, t[i], t[j]);
        TwiceInSeq(t, i, j);
        TwiceDistinct(s, t[i]);
      }
    }
  }

  lemma SameNumberSame(s: seq<Event>, x: Event, y: Event)
    requires DistinctNumbers(s) && x in s && y in s && x.number == y.number
    ensures x == y
  {
    var p :| 0 <= p < |s| && s[p] == x;
    var q :| 0 <= q < |s| && s[q] == y;
    assert p < q ==> Apart(s, p, q);
    assert q < p ==> Apart(s, q, p);
  }

  lemma LastIsNew(s: seq<Event>)
    requires DistinctNumbers(s) && s != []
    ensures s[|s| - 1] !in s[..|s| - 1]
  {
    forall i | 0 <= i < |s| - 1 ensures s[i] != s[|s| - 1] { assert Apart(s, i, |s| - 1); }
  }

  lemma TwiceInSeq<T>(t: seq<T>, i: nat, j: nat)
    requires i < j < |t| && t[i] == t[j]
    ensures multiset(t)[t[i]] >= 2
  {
    assert t == t[..j] + t[j..];
    assert t[i] in t[..j] && t[j] in t[j..] by { assert t[..j][i] == t[i] && t[j..][0] == t[j]; }
    assert multiset(t) == multiset(t[..j]) + multiset(t[j..]);
  }

  lemma {:induction false} TwiceDistinct(s: seq<Event>, e: Event)
    requires DistinctNumbers(s)
    ensures multiset(s)[e] <= 1
  {
    if s != [] {
      var n := |s| - 1;
      forall i, j | 0 <= i < j < n ensures Apart(s[..n], i, j) { assert Apart(s, i, j); }
      TwiceDistinct(s[..n], e);
      Snoc(s);
      assert multiset(s) == multiset(s[..n]) + multiset{s[n]};
      LastIsNew(s);
    }
  }

  /** Events of one run with distinct numbers give the same document in whatever order they arrive;
      events of other runs may be among them, as long as the first names the same run. */
  lemma OrderIrrelevant(files: Files, a: seq<Event>, b: seq<Event>, version: nat)
    requires multiset(a) == multiset(b) && (a != [] && b != [] ==> a[0].run == b[0].run)
    requires a != [] ==> DistinctNumbers(Scoped(a, a[0].run))
    ensures Project(files, a, version) == Project(files, b, version)
  {
    hide Entries, LastEntry, TerminalOf;
    assert |multiset(a)| == |a| && |multiset(b)| == |b|;
    if a != [] {
      var run := a[0].run;
      SameScope(a, b, run);
      SortedSorts(Scoped(a, run));
      SortedSorts(Scoped(b, run));
      DistinctAnyOrder(Scoped(a, run), Sorted(Scoped(a, run)));
      SortedUnique(Sorted(Scoped(a, run)), Sorted(Scoped(b, run)));
    }
  }

  // ---------- versions, terminal entry, beliefs ----------

  function WithoutBeliefs(entries: seq<Entry>): seq<Entry> {
    if entries == [] then []
    else
      WithoutBeliefs(entries[..|entries| - 1])
      + if entries[|entries| - 1].BeliefEntry? then [] else [entries[|entries| - 1]]
  }

  lemma {:induction false} ErasePush(a: seq<Entry>, b: seq<Entry>)
    requires |b| <= 1
    ensures WithoutBeliefs(a + b) == WithoutBeliefs(a) + if b != [] && !b[0].BeliefEntry? then b else []
  {
    if b == [] {
      AddNil(a);
      AddNil(WithoutBeliefs(a));
    } else {
      assert b == [b[0]];
      Unsnoc(a, b[0]);
      AddNil(WithoutBeliefs(a));
    }
  }

  lemma {:induction false} EntriesErase(events: seq<Event>, terminal: Option<int>)
    ensures Entries(events, 1, terminal) == WithoutBeliefs(Entries(events, 2, terminal))
  {
    if events != [] {
      var front, e := events[..|events| - 1], events[|events| - 1];
      EntriesErase(front, terminal);
      ErasePush(Entries(front, 2, terminal), EntryOf(e, 2, terminal));
      AddNil(Entries(front, 1, terminal));
    }
  }

  /** Version 1 is version 2 with the beliefs erased. */
  lemma VersionOneErases(files: Files, events: seq<Event>)
    ensures Project(files, events, 1) == WithoutBeliefs(Project(files, events, 2))
  {
    var scoped := InOrder(events);
    EntriesErase(scoped, TerminalOf(scoped));
    ErasePush(Entries(scoped, 2, TerminalOf(scoped)), [LastEntry(files, scoped)]);
  }

  predicate IsTerminal(e: Entry) { e.Final? || e.Error? }

  lemma {:induction false} EntriesNotTerminal(events: seq<Event>, version: nat, terminal: Option<int>)
    ensures forall i | 0 <= i < |Entries(events, version, terminal)| ::
            !IsTerminal(Entries(events, version, terminal)[i])
  {
    if events != [] {
      EntriesNotTerminal(events[..|events| - 1], version, terminal);
    }
  }

  /** There is exactly one terminal entry, and it is the last: an error exactly when some event of the
      run is a child error. */
  lemma OneTerminalAtEnd(files: Files, events: seq<Event>, version: nat)
    ensures var p := Project(files, events, version);
            && p != [] && IsTerminal(p[|p| - 1]) && (forall i | 0 <= i < |p| - 1 :: !IsTerminal(p[i]))
            && (p[|p| - 1].Error? <==> exists e | e in InOrder(events) :: IsChildError(e))
  {
    hide InOrder, IsChildError, LastOutput;
    var scoped := InOrder(events);
    EntriesNotTerminal(scoped, version, TerminalOf(scoped));
  }

  function ToolsOnly(events: seq<Event>): seq<Entry> { Entries(events, 1, None) }

  lemma SuffixEntries(events: seq<Event>, k: nat, version: nat, terminal: Option<int>)
    requires k < |events|
    ensures var n := |events| - 1;
            Entries(events[k..], version, terminal)
            == Entries(events[..n][k..], version, terminal) + EntryOf(events[n], version, terminal)
  {
    var n := |events| - 1;
    assert events[k..][..n - k] == events[..n][k..] && events[k..][n - k] == events[n];
  }

  lemma {:induction false} EntriesSplit(events: seq<Event>, k: nat, version: nat, terminal: Option<int>)
    requires k <= |events|
    ensures Entries(events, version, terminal)
            == Entries(events[..k], version, terminal) + Entries(events[k..], version, terminal)
  {
    if k == |events| {
      assert events[..k] == events && events[k..] == [];
      AddNil(Entries(events, version, terminal));
    } else {
      var n := |events| - 1;
      EntriesSplit(events[..n], k, version, terminal);
      assert events[..n][..k] == events[..k];
      SuffixEntries(events, k, version, terminal);
      hide EntryOf;
      Assoc(Entries(events[..k], version, terminal), Entries(events[..n][k..], version, terminal),
            EntryOf(events[n], version, terminal));
    }
  }

  lemma {:induction false} LateEntries(events: seq<Event>, t: int)
    requires forall i | 0 <= i < |events| :: events[i].number > t
    ensures Entries(events, 2, Some(t)) == ToolsOnly(events)
  {
    if events != [] { LateEntries(events[..|events| - 1], t); }
  }

  lemma {:induction false} EarlyEntries(events: seq<Event>, t: int)
    requires forall i | 0 <= i < |events| :: events[i].number <= t
    ensures Entries(events, 2, Some(t)) == Entries(events, 2, None)
  {
    if events != [] { EarlyEntries(events[..|events| - 1], t); }
  }

  lemma NoEntry(e: Event, version: nat, terminal: Option<int>)
    requires e.body.AdapterError?
    ensures Entries([e], version, terminal) == []
  {
    assert [e][..0] == [];
  }

  lemma EntriesFromError(rest: seq<Event>, t: int)
    requires rest != [] && rest[0].body.AdapterError? && forall i | 1 <= i < |rest| :: rest[i].number > t
    ensures Entries(rest, 2, Some(t)) == ToolsOnly(rest)
  {
    hide Entries, EntryOf;
    EntriesSplit(rest, 1, 2, Some(t));
    EntriesSplit(rest, 1, 1, None);
    assert rest[..1] == [rest[0]];
    NoEntry(rest[0], 2, Some(t));
    NoEntry(rest[0], 1, None);
    LateEntries(rest[1..], t);
  }

  /** The first child error cuts the entries in two: everything up to it, and behind it tool calls
      only. Nothing is lost before it, no belief survives after it. */
  lemma NoBeliefAfterError(files: Files, events: seq<Event>, k: nat)
    requires DistinctNumbers(InOrder(events)) && FirstError(InOrder(events), 0) == Some(k)
    ensures var scoped := InOrder(events);
            Project(files, events, 2)
            == Entries(scoped[..k], 2, None) + ToolsOnly(scoped[k..]) + [Error(scoped[k].body.message)]
  {
    hide MentionsChild, LastOutput, Entries;
    var scoped := InOrder(events);
    var t := scoped[k].number;
    if events != [] { SortedSorts(Scoped(events, events[0].run)); }
    EntriesSplit(scoped, k, 2, Some(t));
    forall i | 0 <= i < k ensures scoped[..k][i].number <= t { assert NotAfter(scoped, i, k); }
    EarlyEntries(scoped[..k], t);
    var rest := scoped[k..];
    forall i | 1 <= i < |rest| ensures rest[i].number > t {
      assert NotAfter(scoped, k, k + i) && Apart(scoped, k, k + i);
    }
    EntriesFromError(rest, t);
  }

  // ---------- what the entries hold ----------

  /** The entry tells of the event: the same name and arguments, or the same belief. */
  predicate Tells(entry: Entry, e: Event) {
    || (e.body.ToolObserved? && entry == ToolCall(e.body.name, e.body.arguments))
    || (e.body.BeliefExtracted? && entry == BeliefEntry(e.body.belief))
  }

  /** An event that must have its entry: every tool call and, in version 2, every belief not after the error. */
  predicate Due(e: Event, version: nat, terminal: Option<int>) {
    || e.body.ToolObserved?
    || (e.body.BeliefExtracted? && version == 2 && (terminal.Some? ==> e.number <= terminal.value))
  }

  /** Entry i tells of the due event at place at[i]. */
  ghost predicate ToldAt(entries: seq<Entry>, events: seq<Event>, at: seq<nat>, i: nat,
                         version: nat, terminal: Option<int>)
    requires i < |at| && i < |entries|
  {
    at[i] < |events| && Due(events[at[i]], version, terminal) && Tells(entries[i], events[at[i]])
  }

  /** `at` gives for each entry, in order, the place of the one due event it tells of. */
  ghost predicate Placed(entries: seq<Entry>, events: seq<Event>, at: seq<nat>, version: nat, terminal: Option<int>) {
    && |at| == |entries| && Rising(at)
    && (forall i | 0 <= i < |at| :: ToldAt(entries, events, at, i, version, terminal))
    && forall k | 0 <= k < |events| && Due(events[k], version, terminal) :: k in at
  }

  lemma PlacedSkip(entries: seq<Entry>, events: seq<Event>, at: seq<nat>, version: nat, terminal: Option<int>, e: Event)
    requires Placed(entries, events, at, version, terminal) && !Due(e, version, terminal)
    ensures Placed(entries, events + [e], at, version, terminal)
  {
    hide Due, Tells, Rising;
    forall i | 0 <= i < |at| ensures ToldAt(entries, events + [e], at, i, version, terminal) {
      assert ToldAt(entries, events, at, i, version, terminal);
    }
  }

  lemma PlacedPush(entries: seq<Entry>, events: seq<Event>, at: seq<nat>, version: nat, terminal: Option<int>,
                   entry: Entry, e: Event)
    requires Placed(entries, events, at, version, terminal) && Due(e, version, terminal) && Tells(entry, e)
    ensures Placed(entries + [entry], events + [e], at + [|events|], version, terminal)
  {
    hide Due, Tells;
    var all, places := entries + [entry], at + [|events|];
    forall i | 0 <= i < |at| ensures at[i] < |events| && ToldAt(all, events + [e], places, i, version, terminal) {
      assert ToldAt(entries, events, at, i, version, terminal);
    }
    forall k | 0 <= k < |events| + 1 && Due((events + [e])[k], version, terminal) ensures k in places {
      if k < |events| { assert k in at; } else { assert places[|at|] == k; }
    }
  }

  lemma EntryOfDue(e: Event, version: nat, terminal: Option<int>)
    ensures var more := EntryOf(e, version, terminal);
            if Due(e, version, terminal) then |more| == 1 && Tells(more[0], e) else more == []
  {}

  lemma {:induction false} EntriesPlaced(events: seq<Event>, version: nat, terminal: Option<int>) returns (at: seq<nat>)
    ensures Placed(Entries(events, version, terminal), events, at, version, terminal)
  {
    at := [];
    if events != [] {
      hide Placed, Due, Tells, EntryOf;
      var front, e := events[..|events| - 1], events[|events| - 1];
      var entries, more := Entries(front, version, terminal), EntryOf(e, version, terminal);
      at := EntriesPlaced(front, version, terminal);
      EntryOfDue(e, version, terminal);
      Snoc(events);
      if Due(e, version, terminal) {
        PlacedPush(entries, front, at, version, terminal, more[0], e);
        assert more == [more[0]];
        at := at + [|front|];
      } else {
        PlacedSkip(entries, front, at, version, terminal, e);
        AddNil(entries);
      }
    }
  }

  /** Place j of a recorded session holds its last output. */
  ghost predicate LastOutputAt(items: seq<Item>, j: nat) {
    && j < |items| && items[j].isOutput && items[j].content.Some?
    && forall k | j < k < |items| :: !(items[k].isOutput && items[k].content.Some?)
  }

  lemma {:induction false} LastContentIs(items: seq<Item>)
    ensures match LastContent(items)
            case Some(v) => exists j: nat :: LastOutputAt(items, j) && items[j].content == Some(v)
            case None => forall k | 0 <= k < |items| :: !(items[k].isOutput && items[k].content.Some?)
  {
    if items != [] {
      var n := |items| - 1;
      LastContentIs(items[..n]);
      if items[n].isOutput && items[n].content.Some? {
        assert LastOutputAt(items, n);
      } else if LastContent(items).Some? {
        var j: nat :| LastOutputAt(items[..n], j) && items[..n][j].content == LastContent(items);
        assert LastOutputAt(items, j);
      }
    }
  }

  /** The session recorded by an event, if it has one that can be read. */
  function SessionOf(files: Files, e: Event): Option<seq<Item>> {
    if e.body.SessionRecorded? && e.body.path != "" then files(e.body.path) else None
  }

  predicate HasOutput(files: Files, e: Event) {
    SessionOf(files, e).Some? && exists j | 0 <= j < |SessionOf(files, e).value| ::
      SessionOf(files, e).value[j].isOutput && SessionOf(files, e).value[j].content.Some?
  }

  /** Event i is the last with an output, and v is the last output of its session. */
  ghost predicate OutputAt(files: Files, events: seq<Event>, i: nat, v: Tree) {
    && i < |events| && SessionOf(files, events[i]).Some?
    && (exists j: nat :: LastOutputAt(SessionOf(files, events[i]).value, j)
                         && SessionOf(files, events[i]).value[j].content == Some(v))
    && forall k | i < k < |events| :: !HasOutput(files, events[k])
  }

  /** v is the output of the last event that has one, or the empty object when none has. */
  ghost predicate IsLastOutput(files: Files, events: seq<Event>, v: Tree) {
    || (exists i: nat :: OutputAt(files, events, i, v))
    || ((forall k | 0 <= k < |events| :: !HasOutput(files, events[k])) && v == Object([]))
  }

  lemma {:induction false} LastOutputIs(files: Files, events: seq<Event>)
    ensures IsLastOutput(files, events, LastOutput(files, events))
  {
    if events != [] {
      var n := |events| - 1;
      var front, v := events[..n], LastOutput(files, events);
      LastOutputIs(files, front);
      var session := SessionOf(files, events[n]);
      if session.Some? { LastContentIs(session.value); }
      if session.Some? && LastContent(session.value).Some? {
        assert OutputAt(files, events, n, v);
      } else {
        assert !HasOutput(files, events[n]);
        if i: nat :| OutputAt(files, front, i, v) { assert OutputAt(files, events, i, v); }
      }
    }
  }

  /** Place k holds the first child error. */
  ghost predicate FirstErrorAt(events: seq<Event>, k: nat) {
    k < |events| && IsChildError(events[k]) && forall j | 0 <= j < k :: !IsChildError(events[j])
  }

  /** For any events: the entries before the last tell, one each and in order, of exactly the tool calls and, in
      version 2, the beliefs up to the first child error; the last carries the message of that error, or the last
      output of the last recorded session that has one. */
  lemma EntriesTellEvents(files: Files, events: seq<Event>, version: nat) returns (at: seq<nat>)
    ensures var p, scoped := Project(files, events, version), InOrder(events);
            && p != []
            && (forall k: nat | FirstErrorAt(scoped, k) ::
                  && p[|p| - 1] == Error(scoped[k].body.message)
                  && Placed(p[..|p| - 1], scoped, at, version, Some(scoped[k].number)))
            && ((forall k | 0 <= k < |scoped| :: !IsChildError(scoped[k])) ==>
                  && p[|p| - 1].Final? && IsLastOutput(files, scoped, p[|p| - 1].output)
                  && Placed(p[..|p| - 1], scoped, at, version, None))
  {
    hide InOrder, Entries, Placed, IsChildError, LastOutput, IsLastOutput;
    var scoped := InOrder(events);
    at := EntriesPlaced(scoped, version, TerminalOf(scoped));
    var entries, last := Entries(scoped, version, TerminalOf(scoped)), LastEntry(files, scoped);
    assert (entries + [last])[..|entries|] == entries;
    if FirstError(scoped, 0).None? { LastOutputIs(files, scoped); }
  }

  /** The events projected are those of the first event's run, in ascending order. */
  lemma InOrderIs(events: seq<Event>)
    requires events != []
    ensures Ascending(InOrder(events))
    ensures forall e :: multiset(InOrder(events))[e] == if e.run == events[0].run then multiset(events)[e] else 0
  {
    SortedSorts(Scoped(events, events[0].run));
    ScopedMultiset(events, events[0].run);
  }

  /** A child error is an adapter error whose cause or message holds one of three words, in any case. */
  lemma ChildErrorIs(e: Event)
    ensures IsChildError(e) <==>
            && e.body.AdapterError?
            && exists w | w in {"child", "spawn", "exec"} ::
                 Mentions(e.body.cause, w) || (e.body.message.Some? && Mentions(e.body.message.value, w))
  {
    if e.body.AdapterError? {
      WordIn(e.body.cause);
      WordIn(if e.body.message.Some? then e.body.message.value else "");
      EmptyMentionsNothing();
    }
  }

  /** In any case: a text mentions what its lower-case form mentions. */
  lemma CaseIrrelevant(text: string, word: string)
    ensures Mentions(Lower(text), word) <==> Mentions(text, word)
  {
    hide Lower;
    forall i | 0 <= i <= |text| ensures MentionsAt(Lower(text), i, word) <==> MentionsAt(text, i, word) {
      if i + |word| <= |text| {
        LowerSlice(text, i, i + |word|);
        LowerTwice(text[i..i + |word|]);
      }
    }
  }

  lemma WordIn(t: string)
    ensures MentionsChild(t) <==> Mentions(t, "child") || Mentions(t, "spawn") || Mentions(t, "exec")
  {
    hide Mentions;
    assert WORDS[0] == "child" && WORDS[1] == "spawn" && WORDS[2] == "exec";
  }

  lemma EmptyMentionsNothing()
    ensures !MentionsChild("")
  {}
}
