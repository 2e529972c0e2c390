/** The on-disk configuration migration as filesystem steps, with a crash allowed between any two. */
module ConfigMigration {
  import opened Lines
  import opened Options

  // ---------- a filesystem that can crash ----------

  datatype DirOp = Create(name: string, inode: nat) | Rename(source: string, target: string) | Unlink(name: string)

  /** A file's bytes, and whether they have been flushed since they last changed. */
  datatype File = File(content: Bytes, flushed: bool)

  type Directory = map<string, nat>

  /** Directory operations since `base`, of which the first `persisted` are durable; inodes below
      `next` are in use. */
  datatype FS = FS(base: Directory, ops: seq<DirOp>, persisted: nat, files: map<nat, File>, next: nat)

  function Apply(d: Directory, op: DirOp): Directory {
    match op
    case Create(name, inode) => d[name := inode]
    case Rename(a, b) => if a in d then (d - {a})[b := d[a]] else d
    case Unlink(name) => d - {name}
  }

  /** The directory after the first k operations. */
  function Dir(fs: FS, k: nat): Directory
    requires k <= |fs.ops|
  {
    if k == 0 then fs.base else Apply(Dir(fs, k - 1), fs.ops[k - 1])
  }

  function Live(fs: FS): Directory { Dir(fs, |fs.ops|) }

  /** What a crash can leave: directory operations persist in order, at least those already durable;
      a flushed file keeps its bytes, any other may hold anything. */
  ghost predicate CrashImage(fs: FS, image: map<string, Bytes>) {
    fs.persisted <= |fs.ops|
    && exists k | fs.persisted <= k <= |fs.ops| :: ImageAt(fs, k, image)
  }

  ghost predicate ImageAt(fs: FS, k: nat, image: map<string, Bytes>)
    requires k <= |fs.ops|
  {
    && image.Keys == Dir(fs, k).Keys
    && forall name | name in image ::
         var inode := Dir(fs, k)[name];
         inode in fs.files && fs.files[inode].flushed ==> image[name] == fs.files[inode].content
  }

  predicate Holds(fs: FS, d: Directory, name: string, data: Bytes) {
    name in d && d[name] in fs.files && fs.files[d[name]] == File(data, true)
  }

  // ---------- what must hold at every crash point ----------

  /** Original configuration, or the full new one with a complete backup of the original. */
  predicate SafeAt(fs: FS, k: nat, config: string, backup: string, original: Bytes, v2: Bytes)
    requires k <= |fs.ops|
  {
    var d := Dir(fs, k);
    Holds(fs, d, config, original) || (Holds(fs, d, config, v2) && Holds(fs, d, backup, original))
  }

  ghost predicate Safe(fs: FS, config: string, backup: string, original: Bytes, v2: Bytes) {
    fs.persisted <= |fs.ops| && forall k | fs.persisted <= k <= |fs.ops| :: SafeAt(fs, k, config, backup, original, v2)
  }

  /** Every image a crash can leave of a safe state has the original, or v2 and the backup. */
  lemma SafeImages(fs: FS, config: string, backup: string, original: Bytes, v2: Bytes, image: map<string, Bytes>)
    requires Safe(fs, config, backup, original, v2) && CrashImage(fs, image)
    ensures config in image
    ensures image[config] == original || (image[config] == v2 && backup in image && image[backup] == original)
  {
    var k :| fs.persisted <= k <= |fs.ops| && ImageAt(fs, k, image);
    assert SafeAt(fs, k, config, backup, original, v2);
    assert config in Dir(fs, k).Keys;
  }

  // ---------- the disk and its calls, any of which may fail ----------

  datatype Opened = Opened(inode: nat) | Exists | Failed

  function Fresh(fs: FS, name: string): FS {
    fs.(ops := fs.ops + [Create(name, fs.next)], files := fs.files[fs.next := File([], false)], next := fs.next + 1)
  }

  class Disk {
    var fs: FS
    /** Every state the disk has been in. */
    ghost var history: seq<FS>
    /** What the system answers to the n-th call: None for a failure. */
    const answers: nat -> Option<nat>
    var calls: nat

    constructor (fs: FS, answers: nat -> Option<nat>)
      ensures this.fs == fs && history == [fs]
    {
      this.fs, history, this.answers, calls := fs, [fs], answers, 0;
    }

    /** No call fails. */
    ghost predicate Healthy() { forall n: nat :: answers(n).Some? }

    method Answer() returns (r: Option<nat>)
      modifies this`calls
      ensures Healthy() ==> r.Some?
    {
      r := answers(calls);
      calls := calls + 1;
    }

    method Become(next: FS)
      modifies this`fs, this`history
      ensures fs == next && history == old(history) + [next]
    {
      fs := next;
      history := history + [next];
    }

    /** Creation with the exclusive flag. */
    method OpenExclusive(name: string) returns (r: Opened)
      modifies this
      ensures r.Opened? ==> name !in Live(old(fs)) && r.inode == old(fs).next && fs == Fresh(old(fs), name)
      ensures r.Opened? ==> history == old(history) + [fs]
      ensures r.Exists? ==> name in Live(old(fs))
      ensures !r.Opened? ==> fs == old(fs) && history == old(history)
      ensures Healthy() && name !in Live(old(fs)) ==> r.Opened?
    {
      var a := Answer();
      if a.None? { return Failed; }
      if name in Live(fs) { return Exists; }
      Become(Fresh(fs, name));
      return Opened(fs.next - 1);
    }

    /** Writes some of `data` from `off` on; answers how much, or -1. */
    method Write(inode: nat, data: Bytes, off: nat) returns (n: int)
      requires off < |data| && inode in fs.files && fs.files[inode].content == data[..off]
      modifies this
      ensures n == -1 || 1 <= n <= |data| - off
      ensures n == -1 ==> fs == old(fs) && history == old(history)
      ensures n != -1 ==> fs == old(fs).(files := old(fs).files[inode := File(data[..off + n], false)])
      ensures n != -1 ==> history == old(history) + [fs]
      ensures Healthy() ==> n != -1
    {
      var a := Answer();
      if a.None? { return -1; }
      n := if 1 <= a.value <= |data| - off then a.value else 1;
      assert data[..off] + data[off..off + n] == data[..off + n];
      Become(fs.(files := fs.files[inode := File(fs.files[inode].content + data[off..off + n], false)]));
    }

    method Fsync(inode: nat) returns (ok: bool)
      requires inode in fs.files
      modifies this
      ensures fs == if ok then old(fs).(files := old(fs).files[inode := old(fs).files[inode].(flushed := true)])
                    else old(fs)
      ensures history == old(history) + if ok then [fs] else []
      ensures Healthy() ==> ok
    {
      var a := Answer();
      if a.None? { return false; }
      Become(fs.(files := fs.files[inode := fs.files[inode].(flushed := true)]));
      return true;
    }

    method DirectoryOp(op: DirOp) returns (ok: bool)
      modifies this
      ensures fs == if ok then old(fs).(ops := old(fs).ops + [op]) else old(fs)
      ensures history == old(history) + if ok then [fs] else []
      ensures Healthy() ==> ok
    {
      var a := Answer();
      if a.None? { return false; }
      Become(fs.(ops := fs.ops + [op]));
      return true;
    }

    method FsyncDir() returns (ok: bool)
      modifies this
      ensures fs == if ok then old(fs).(persisted := |old(fs).ops|) else old(fs)
      ensures history == old(history) + if ok then [fs] else []
      ensures Healthy() ==> ok
    {
      var a := Answer();
      if a.None? { return false; }
      Become(fs.(persisted := |fs.ops|));
      return true;
    }

    /** A new file with exactly `data`, flushed; on failure an incomplete file may stay behind. */
    method WriteExclusive(name: string, data: Bytes) returns (r: Opened)
      modifies this
      ensures r.Opened? ==> name !in Live(old(fs)) && fs == Written(old(fs), name, data)
      ensures name in Live(old(fs)) ==> fs == old(fs) && history == old(history)
      ensures Healthy() && name !in Live(old(fs)) ==> r.Opened?
      ensures Grown(old(fs), fs, name)
      ensures |old(history)| <= |history| && history[..|old(history)|] == old(history)
      ensures forall i | |old(history)| <= i < |history| :: Grown(old(fs), history[i], name)
    {
      r := OpenExclusive(name);
      if !r.Opened? { return; }
      var inode, off := r.inode, 0;
      ghost var f0, h0 := old(fs), |old(history)|;
      while off < |data|
        invariant off <= |data| && inode == f0.next
        invariant fs == Fresh(f0, name).(files := f0.files[inode := File(data[..off], false)])
        invariant h0 <= |history| && history[..h0] == old(history)
        invariant forall i | h0 <= i < |history| :: Grown(f0, history[i], name)
      {
        var n := Write(inode, data, off);
        if n == -1 { return Failed; }
        assert fs.files == f0.files[inode := File(data[..off + n], false)];
        off := off + n;
      }
      assert data[..off] == data;
      // fchmod
      var a := Answer();
      if a.None? { return Failed; }
      var ok := Fsync(inode);
      if !ok { return Failed; }
      assert fs.files == f0.files[inode := File(data, true)];
    }
  }

  lemma WrittenNames(fs: FS, name: string, data: Bytes)
    ensures Live(Written(fs, name, data)).Keys == Live(fs).Keys + {name}
  {
    var h := Written(fs, name, data);
    DirPrefix(fs, h, |fs.ops|);
  }

  function Written(fs: FS, name: string, data: Bytes): FS {
    Fresh(fs, name).(files := fs.files[fs.next := File(data, true)])
  }

  /** Nothing but a new file `name` may have come into being. */
  predicate Grown(f0: FS, h: FS, name: string) {
    && h.base == f0.base && h.persisted == f0.persisted
    && (h == f0 || (h.ops == f0.ops + [Create(name, f0.next)] && h.next == f0.next + 1 && name !in Live(f0)
                    && h.files.Keys == f0.files.Keys + {f0.next}
                    && forall i | i in f0.files && i != f0.next :: h.files[i] == f0.files[i]))
  }

  // ---------- the migration ----------

  /** What parsing, the v1 schema, the conversion and the v2 schema make of the raw bytes. */
  datatype Judgement = NotJson | NotV1 | BadV2 | Valid(v2: Bytes)

  datatype Checks = Checks(judge: Bytes -> Judgement, recheck: Bytes -> bool, sha: Bytes -> string)

  datatype Result = Migrated(backup: string, oldSha: string, newSha: string)
    | NotFound | ReadFailed | ParseError | SchemaError | MigrationError

  function BackupName(config: string, sha: string): string { config + ".v1." + sha + ".bak" }
  function TempName(config: string, suffix: string): string { config + ".v2." + suffix + ".tmp" }

  lemma NamesDiffer(config: string, sha: string, suffix: string)
    ensures config != BackupName(config, sha) && config != TempName(config, suffix)
    ensures BackupName(config, sha) != TempName(config, suffix)
  {
    var n := |config|;
    assert BackupName(config, sha)[n + 2] == '1' && TempName(config, suffix)[n + 2] == '2';
  }

  lemma TempNamesDiffer(config: string, a: string, b: string)
    requires a != b && |a| == |b|
    ensures TempName(config, a) != TempName(config, b)
  {
    var n := |config| + 4;
    assert TempName(config, a)[n..n + |a|] == a && TempName(config, b)[n..n + |b|] == b;
  }

  /** The original is the configuration at every crash point. */
  ghost predicate Untouched(fs: FS, config: string, original: Bytes) {
    && fs.persisted <= |fs.ops| && (forall i | i in fs.files :: i < fs.next)
    && forall k | fs.persisted <= k <= |fs.ops| :: HoldsAt(fs, k, config, original)
  }

  predicate HoldsAt(fs: FS, k: nat, name: string, data: Bytes)
    requires k <= |fs.ops|
  {
    Holds(fs, Dir(fs, k), name, data)
  }

  lemma UntouchedIsSafe(fs: FS, config: string, backup: string, original: Bytes, v2: Bytes)
    requires Untouched(fs, config, original)
    ensures Safe(fs, config, backup, original, v2)
  {
    forall k | fs.persisted <= k <= |fs.ops| ensures SafeAt(fs, k, config, backup, original, v2) {
      assert HoldsAt(fs, k, config, original);
    }
  }

  lemma {:induction false} DirPrefix(f: FS, g: FS, k: nat)
    requires f.base == g.base && k <= |f.ops| && f.ops <= g.ops
    ensures Dir(f, k) == Dir(g, k)
  {
    if k > 0 { DirPrefix(f, g, k - 1); }
  }

  /** A new file under another name leaves the configuration alone. */
  lemma GrownUntouched(f: FS, h: FS, name: string, config: string, original: Bytes)
    requires Untouched(f, config, original) && Grown(f, h, name) && name != config
    ensures Untouched(h, config, original)
  {
    if h != f {
      forall k | h.persisted <= k <= |h.ops| ensures HoldsAt(h, k, config, original) {
        var j := if k <= |f.ops| then k else |f.ops|;
        assert HoldsAt(f, j, config, original);
        DirPrefix(f, h, j);
      }
    }
  }

  lemma OpUntouched(f: FS, op: DirOp, config: string, original: Bytes)
    requires Untouched(f, config, original) && op.Unlink? && op.name != config
    ensures Untouched(f.(ops := f.ops + [op]), config, original)
  {
    var h := f.(ops := f.ops + [op]);
    forall k | h.persisted <= k <= |h.ops| ensures HoldsAt(h, k, config, original) {
      var j := if k <= |f.ops| then k else |f.ops|;
      assert HoldsAt(f, j, config, original);
      DirPrefix(f, h, j);
    }
  }

  lemma WrittenHolds(f: FS, name: string, data: Bytes)
    ensures Holds(Written(f, name, data), Live(Written(f, name, data)), name, data)
  {
    DirPrefix(f, Written(f, name, data), |f.ops|);
  }

  lemma WrittenKeeps(f: FS, name: string, data: Bytes, other: string, was: Bytes)
    requires Holds(f, Live(f), other, was) && other != name && forall i | i in f.files :: i < f.next
    ensures Holds(Written(f, name, data), Live(Written(f, name, data)), other, was)
  {
    DirPrefix(f, Written(f, name, data), |f.ops|);
  }

  /** The rename puts the complete new file in place, behind a complete backup. */
  lemma RenameSafe(f: FS, config: string, backup: string, temp: string, original: Bytes, v2: Bytes)
    requires Untouched(f, config, original) && Holds(f, Live(f), backup, original) && Holds(f, Live(f), temp, v2)
    requires config != backup && config != temp && backup != temp
    ensures var h := f.(ops := f.ops + [Rename(temp, config)]);
            && Safe(h, config, backup, original, v2)
            && Holds(h, Live(h), config, v2) && Holds(h, Live(h), backup, original) && temp !in Live(h)
  {
    var h := f.(ops := f.ops + [Rename(temp, config)]);
    forall k | h.persisted <= k <= |h.ops| ensures SafeAt(h, k, config, backup, original, v2) {
      if k <= |f.ops| {
        assert HoldsAt(f, k, config, original);
        DirPrefix(f, h, k);
      } else {
        DirPrefix(f, h, |f.ops|);
      }
    }
    DirPrefix(f, h, |f.ops|);
  }

  lemma SyncSafe(f: FS, config: string, backup: string, original: Bytes, v2: Bytes)
    requires Safe(f, config, backup, original, v2) && Holds(f, Live(f), config, v2)
    requires Holds(f, Live(f), backup, original)
    ensures var h := f.(persisted := |f.ops|);
            && Safe(h, config, backup, original, v2) && Live(h) == Live(f)
            && Holds(h, Live(h), config, v2) && Holds(h, Live(h), backup, original)
  {
    var h := f.(persisted := |f.ops|);
    DirPrefix(f, h, |f.ops|);
    assert SafeAt(h, |f.ops|, config, backup, original, v2);
  }

  /** Some states were added to a history, all of them safe. */
  ghost predicate AddedSafe(before: seq<FS>, after: seq<FS>, config: string, backup: string, original: Bytes,
                            v2: Bytes)
  {
    && |before| <= |after| && after[..|before|] == before
    && forall i | |before| <= i < |after| :: Safe(after[i], config, backup, original, v2)
  }

  lemma AddedMore(a: seq<FS>, b: seq<FS>, c: seq<FS>, config: string, backup: string, original: Bytes, v2: Bytes)
    requires AddedSafe(a, b, config, backup, original, v2) && AddedSafe(b, c, config, backup, original, v2)
    ensures AddedSafe(a, c, config, backup, original, v2)
  {
    assert c[..|a|] == c[..|b|][..|a|];
    forall i | |a| <= i < |c| ensures Safe(c[i], config, backup, original, v2) {
      if i < |b| { assert c[i] == c[..|b|][i] == b[i]; }
    }
  }

  /** Every new state grown from an untouched one is safe. */
  lemma GrownAddedSafe(f: FS, before: seq<FS>, after: seq<FS>, name: string, config: string, backup: string,
                       original: Bytes, v2: Bytes)
    requires Untouched(f, config, original) && name != config
    requires |before| <= |after| && after[..|before|] == before
    requires forall i | |before| <= i < |after| :: Grown(f, after[i], name)
    ensures AddedSafe(before, after, config, backup, original, v2)
  {
    forall i | |before| <= i < |after| ensures Safe(after[i], config, backup, original, v2) {
      GrownUntouched(f, after[i], name, config, original);
      UntouchedIsSafe(after[i], config, backup, original, v2);
    }
  }

  /** Some states were added to a history, all of them with the original in place at every crash point. */
  ghost predicate AddedUntouched(before: seq<FS>, after: seq<FS>, config: string, original: Bytes) {
    && |before| <= |after| && after[..|before|] == before
    && forall i | |before| <= i < |after| :: Untouched(after[i], config, original)
  }

  lemma UntouchedMore(a: seq<FS>, b: seq<FS>, c: seq<FS>, config: string, original: Bytes)
    requires AddedUntouched(a, b, config, original) && AddedUntouched(b, c, config, original)
    ensures AddedUntouched(a, c, config, original)
  {
    assert c[..|a|] == c[..|b|][..|a|];
    forall i | |a| <= i < |c| ensures Untouched(c[i], config, original) {
      if i < |b| { assert c[i] == c[..|b|][i] == b[i]; }
    }
  }

  lemma GrownAddedUntouched(f: FS, before: seq<FS>, after: seq<FS>, name: string, config: string, original: Bytes)
    requires Untouched(f, config, original) && name != config
    requires |before| <= |after| && after[..|before|] == before
    requires forall i | |before| <= i < |after| :: Grown(f, after[i], name)
    ensures AddedUntouched(before, after, config, original)
  {
    forall i | |before| <= i < |after| ensures Untouched(after[i], config, original) {
      GrownUntouched(f, after[i], name, config, original);
    }
  }

  lemma NothingUntouched(h: seq<FS>, config: string, original: Bytes)
    ensures AddedUntouched(h, h, config, original)
  {
    assert h[..|h|] == h;
  }

  lemma OneUntouched(h: seq<FS>, fs: FS, config: string, original: Bytes)
    requires Untouched(fs, config, original)
    ensures AddedUntouched(h, h + [fs], config, original)
  {
    assert (h + [fs])[..|h|] == h;
  }

  /** The configuration and its bytes before the migration. */
  predicate Before(fs: FS, config: string, original: Bytes) {
    && fs.persisted == |fs.ops| && (forall i | i in fs.files :: i < fs.next)
    && Holds(fs, Live(fs), config, original)
  }

  class Migration {
    const disk: Disk
    const checks: Checks
    const config: string

    constructor (disk: Disk, checks: Checks, config: string)
      ensures this.disk == disk && this.checks == checks && this.config == config
    {
      this.disk, this.checks, this.config := disk, checks, config;
    }

    /** Migrates the configuration file in place. */
    method Migrate(suffix: string, dryRun: bool, ghost original: Bytes) returns (r: Result)
      requires config in Live(disk.fs) ==> Before(disk.fs, config, original)
      modifies disk
      ensures var before, after, verdict := old(disk.fs), disk.fs, checks.judge(original);
              var backup := BackupName(config, checks.sha(original));
              && (config !in Live(before) || !verdict.Valid? || dryRun || backup in Live(before) ==>
                    after == before && disk.history == old(disk.history))
              && (r.Migrated? ==>
                    config in Live(before) && verdict.Valid?
                    && r == Migrated(config + ".v1." + checks.sha(original) + ".bak", checks.sha(original),
                                     checks.sha(verdict.v2)))
              && (config !in Live(before) ==> r == NotFound)
              && (config in Live(before) && r != ReadFailed ==>
                    && (verdict.NotJson? ==> r == ParseError) && (verdict.NotV1? ==> r == SchemaError)
                    && (verdict.BadV2? ==> r == MigrationError)
                    && (verdict.Valid? ==> r.Migrated? || (r == MigrationError && !dryRun)))
              && (disk.Healthy() ==> r != ReadFailed)
              && (disk.Healthy() && config in Live(before) && verdict.Valid? && backup !in Live(before)
                    && TempName(config, suffix) !in Live(before) && checks.recheck(verdict.v2) && !dryRun ==>
                    r.Migrated?)
              && (config in Live(before) && verdict.Valid? && !dryRun && !checks.recheck(verdict.v2) ==>
                    !r.Migrated? && AddedUntouched(old(disk.history), disk.history, config, original))
              && (backup in Live(before) && !dryRun ==> !r.Migrated?)
              && (config in Live(before) && verdict.Valid? ==>
                    && AddedSafe(old(disk.history), disk.history, config, backup, original, verdict.v2)
                    && SafeAt(after, |after.ops|, config, backup, original, verdict.v2)
                    && (r.Migrated? && !dryRun ==>
                          && after.persisted == |after.ops|
                          && Holds(after, Live(after), config, verdict.v2)
                          && Holds(after, Live(after), backup, original)))
    {
      hide AddedSafe, Safe, Untouched, AddedUntouched;
      ghost var judged := checks.judge(original);
      NothingUntouched(disk.history, config, original);
      if judged.Valid? {
        NothingAdded(disk.history, config, BackupName(config, checks.sha(original)), original, judged.v2);
      }
      var a := disk.Answer();
      if config !in Live(disk.fs) { return NotFound; }
      if a.None? { return ReadFailed; }
      var raw := disk.fs.files[Live(disk.fs)[config]].content;
      var verdict := checks.judge(raw);
      if verdict.NotJson? { return ParseError; }
      if verdict.NotV1? { return SchemaError; }
      if verdict.BadV2? { return MigrationError; }
      var done := Migrated(BackupName(config, checks.sha(raw)), checks.sha(raw), checks.sha(verdict.v2));
      if dryRun { return done; }
      var ok := Replace(suffix, raw, verdict.v2);
      return if ok then done else MigrationError;
    }

    /** Backup, temporary file, rename; the temporary file is removed on failure. */
    method Replace(suffix: string, raw: Bytes, v2: Bytes) returns (ok: bool)
      requires Before(disk.fs, config, raw)
      modifies disk
      ensures var before, after := old(disk.fs), disk.fs;
              var backup := BackupName(config, checks.sha(raw));
              && (backup in Live(before) ==> !ok && after == before && disk.history == old(disk.history))
              && AddedSafe(old(disk.history), disk.history, config, backup, raw, v2)
              && SafeAt(after, |after.ops|, config, backup, raw, v2)
              && (!checks.recheck(v2) ==> !ok && AddedUntouched(old(disk.history), disk.history, config, raw))
              && (ok ==> after.persisted == |after.ops|
                         && Holds(after, Live(after), config, v2) && Holds(after, Live(after), backup, raw))
              && (disk.Healthy() && backup !in Live(before) ==>
                    if checks.recheck(v2) && TempName(config, suffix) !in Live(before) then ok
                    else TempName(config, suffix) !in Live(after))
    {
      hide AddedSafe, Safe, Untouched, Grown, Written, AddedUntouched;
      var backup, temp := BackupName(config, checks.sha(raw)), TempName(config, suffix);
      NamesDiffer(config, checks.sha(raw), suffix);
      ghost var f0, h0 := disk.fs, disk.history;
      BeforeUntouched(f0, config, raw);
      var made := disk.WriteExclusive(backup, raw);
      ghost var f1, h1 := disk.fs, disk.history;
      GrownAddedSafe(f0, h0, h1, backup, config, backup, raw, v2);
      GrownAddedUntouched(f0, h0, h1, backup, config, raw);
      GrownUntouched(f0, f1, backup, config, raw);
      UntouchedLive(f1, config, backup, raw, v2);
      if !made.Opened? {
        return false;
      }
      WrittenHolds(f0, backup, raw);
      WrittenNames(f0, backup, raw);
      ok := Swap(backup, temp, raw, v2);
      AddedMore(h0, h1, disk.history, config, backup, raw, v2);
      if !checks.recheck(v2) { UntouchedMore(h0, h1, disk.history, config, raw); }
    }

    /** The part that cleans up its temporary file. */
    method Swap(backup: string, temp: string, raw: Bytes, v2: Bytes) returns (ok: bool)
      requires Untouched(disk.fs, config, raw) && Holds(disk.fs, Live(disk.fs), backup, raw)
      requires config != backup && config != temp && backup != temp
      modifies disk
      ensures var after := disk.fs;
              && AddedSafe(old(disk.history), disk.history, config, backup, raw, v2)
              && SafeAt(after, |after.ops|, config, backup, raw, v2)
              && (!checks.recheck(v2) ==> !ok && AddedUntouched(old(disk.history), disk.history, config, raw))
              && (ok ==> after.persisted == |after.ops|
                         && Holds(after, Live(after), config, v2) && Holds(after, Live(after), backup, raw))
              && (disk.Healthy() ==> if checks.recheck(v2) && temp !in Live(old(disk.fs)) then ok
                                     else temp !in Live(after))
    {
      hide AddedSafe, Safe, Untouched, Grown, Written, AddedUntouched;
      ghost var f1, h1 := disk.fs, disk.history;
      var made := disk.WriteExclusive(temp, v2);
      ghost var f2, h2 := disk.fs, disk.history;
      GrownAddedSafe(f1, h1, h2, temp, config, backup, raw, v2);
      GrownAddedUntouched(f1, h1, h2, temp, config, raw);
      GrownUntouched(f1, f2, temp, config, raw);
      UntouchedLive(f2, config, backup, raw, v2);
      var a := disk.Answer();
      if !made.Opened? || a.None? || !checks.recheck(v2) {
        Remove(backup, temp, raw, v2);
        AddedMore(h1, h2, disk.history, config, backup, raw, v2);
        UntouchedMore(h1, h2, disk.history, config, raw);
        return false;
      }
      WrittenHolds(f1, temp, v2);
      UntouchedInodes(f1, config, raw);
      WrittenKeeps(f1, temp, v2, backup, raw);
      ok := disk.DirectoryOp(Rename(temp, config));
      if !ok {
        assert disk.history == h2;
        Remove(backup, temp, raw, v2);
        AddedMore(h1, h2, disk.history, config, backup, raw, v2);
        return false;
      }
      ghost var f3, h3 := disk.fs, disk.history;
      RenameSafe(f2, config, backup, temp, raw, v2);
      OneAdded(h2, f3, config, backup, raw, v2);
      AddedMore(h1, h2, h3, config, backup, raw, v2);
      ok := disk.FsyncDir();
      if ok {
        SyncSafe(f3, config, backup, raw, v2);
        OneAdded(h3, disk.fs, config, backup, raw, v2);
        AddedMore(h1, h3, disk.history, config, backup, raw, v2);
      } else {
        // The temporary name is gone, so removing it does nothing.
        assert disk.history == h3;
      }
    }

    /** Removes the temporary file if it is there; a failure to do so is ignored. */
    method Remove(ghost backup: string, temp: string, ghost raw: Bytes, ghost v2: Bytes)
      requires Untouched(disk.fs, config, raw) && temp != config
      modifies disk
      ensures AddedSafe(old(disk.history), disk.history, config, backup, raw, v2)
      ensures AddedUntouched(old(disk.history), disk.history, config, raw)
      ensures SafeAt(disk.fs, |disk.fs.ops|, config, backup, raw, v2)
      ensures disk.Healthy() ==> temp !in Live(disk.fs)
    {
      hide AddedSafe, Safe, Untouched, AddedUntouched;
      UntouchedLive(disk.fs, config, backup, raw, v2);
      NothingAdded(disk.history, config, backup, raw, v2);
      NothingUntouched(disk.history, config, raw);
      if temp in Live(disk.fs) {
        ghost var f, h := disk.fs, disk.history;
        OpUntouched(f, Unlink(temp), config, raw);
        var ok := disk.DirectoryOp(Unlink(temp));
        if ok {
          UntouchedIsSafe(disk.fs, config, backup, raw, v2);
          OneAdded(h, disk.fs, config, backup, raw, v2);
          OneUntouched(h, disk.fs, config, raw);
          UntouchedLive(disk.fs, config, backup, raw, v2);
        } else {
          assert disk.history == h;
        }
      }
    }
  }

  lemma NothingAdded(h: seq<FS>, config: string, backup: string, original: Bytes, v2: Bytes)
    ensures AddedSafe(h, h, config, backup, original, v2)
  {
    assert h[..|h|] == h;
  }

  lemma OneAdded(h: seq<FS>, fs: FS, config: string, backup: string, original: Bytes, v2: Bytes)
    requires Safe(fs, config, backup, original, v2)
    ensures AddedSafe(h, h + [fs], config, backup, original, v2)
  {
    assert (h + [fs])[..|h|] == h;
  }

  lemma BeforeUntouched(fs: FS, config: string, original: Bytes)
    requires Before(fs, config, original)
    ensures Untouched(fs, config, original)
  {
    assert HoldsAt(fs, |fs.ops|, config, original);
  }

  lemma UntouchedLive(fs: FS, config: string, backup: string, original: Bytes, v2: Bytes)
    requires Untouched(fs, config, original)
    ensures SafeAt(fs, |fs.ops|, config, backup, original, v2)
  {
    assert HoldsAt(fs, |fs.ops|, config, original);
  }

  lemma UntouchedInodes(fs: FS, config: string, original: Bytes)
    requires Untouched(fs, config, original)
    ensures forall i | i in fs.files :: i < fs.next
  {}
}
