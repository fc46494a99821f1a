/**
  Arming as file operations: an exact backup, a temporary, one rename.  A run may be stopped at any moment, or cut off
  by a power loss, which keeps any part of the directory changes that were not yet forced to the disk.
 */
module ArmFiles {
  import opened Common
  import opened ArmCmdline

  /** Backups are named by the digest of what they hold and live in a directory of their own. */
  datatype Files = Files(dir: bool, cmdline: Bytes, backups: map<string, Bytes>, tmp: Option<Bytes>) {
    /** No backups without their directory. */
    predicate Sound() {
      dir || backups == map[]
    }
  }

  function WithBackup(f: Files, name: string, content: Bytes): Files {
    f.(backups := f.backups[name := content])
  }

  function WithDir(f: Files): Files {
    f.(dir := true)
  }

  function WithTmp(f: Files, content: Bytes): Files {
    f.(tmp := Some(content))
  }

  predicate Armable(f: Files, expected: string, digest: Bytes -> string) {
    Readable(f.cmdline) && Unarmed(Tokens(Body(f.cmdline))) && digest(f.cmdline) == expected
  }

  predicate BackedUp(f: Files, value: Bytes, digest: Bytes -> string) {
    digest(value) in f.backups && f.backups[digest(value)] == value
  }

  /** Another content is already kept under the backup's name. */
  predicate Blocked(f: Files, expected: string) {
    expected in f.backups && f.backups[expected] != f.cmdline
  }

  function Saved(f: Files, expected: string): Files {
    WithBackup(WithDir(f), expected, f.cmdline)
  }

  function Replaced(f: Files): Files {
    f.(cmdline := Proposed(f.cmdline))
  }

  /** What an apply that is not stopped leaves, and whether it reports success. */
  function Apply(f: Files, expected: string, digest: Bytes -> string): (Files, bool) {
    if !Armable(f, expected, digest) then (f, false)
    else if Blocked(f, expected) then (WithDir(f), false)
    else
      var saved := Saved(f, expected);
      if f.tmp.Some? then (saved, false)
      else
        var done := Replaced(saved);
        (done, Readable(done.cmdline) && Armed(Tokens(Body(done.cmdline))))
  }

  /**
    What an apply stopped anywhere leaves: nothing done; the directory; a backup, possibly cut off; with an exact
    backup, a temporary, possibly cut off; or the replaced file.
   */
  ghost predicate StoppedApply(f: Files, expected: string, digest: Bytes -> string, d: Files) {
    || d == f
    || (Armable(f, expected, digest) &&
        (StoppedBackup(f, expected, d) || (!Blocked(f, expected) && StoppedReplace(Saved(f, expected), d))))
  }

  ghost predicate StoppedBackup(f: Files, expected: string, d: Files) {
    || d == WithDir(f)
    || (expected !in f.backups && exists c: Bytes :: d == WithBackup(WithDir(f), expected, c))
  }

  ghost predicate StoppedReplace(saved: Files, d: Files) {
    || d == saved
    || (saved.tmp.None? && ((exists c: Bytes :: d == WithTmp(saved, c)) || d == Replaced(saved)))
  }

  /** Files found by successive applies that are each stopped somewhere. */
  ghost predicate StoppedApplies(fs: seq<Files>, expected: string, digest: Bytes -> string) {
    && fs != []
    && forall i | 0 < i < |fs| :: StoppedApply(fs[i - 1], expected, digest, fs[i])
  }

  ghost predicate BeforeOrBackedUpAfter(before: Bytes, f: Files, digest: Bytes -> string) {
    f.cmdline == before || (f.cmdline == Proposed(before) && BackedUp(f, before, digest))
  }

  lemma {:induction false} OneStop(f: Files, expected: string, digest: Bytes -> string, d: Files)
    requires StoppedApply(f, expected, digest, d)
    ensures BeforeOrBackedUpAfter(f.cmdline, d, digest)
    ensures !Armable(f, expected, digest) ==> d == f
  {
  }

  lemma {:induction false} StoppedStep(before: Bytes, f: Files, expected: string, digest: Bytes -> string, d: Files)
    requires !Unarmed(Tokens(Body(Proposed(before))))
    requires BeforeOrBackedUpAfter(before, f, digest) && StoppedApply(f, expected, digest, d)
    ensures BeforeOrBackedUpAfter(before, d, digest)
  {
    OneStop(f, expected, digest, d);
  }

  /**
    Whatever stops the applies, and however often, the command line is exactly as before or exactly as proposed; and
    it is as proposed only while an exact backup exists.
   */
  lemma {:induction false} BeforeOrAfter(fs: seq<Files>, expected: string, digest: Bytes -> string)
    requires StoppedApplies(fs, expected, digest)
    requires Readable(fs[0].cmdline) && Unarmed(Tokens(Body(fs[0].cmdline)))
    ensures BeforeOrBackedUpAfter(fs[0].cmdline, fs[|fs| - 1], digest)
  {
    if |fs| > 1 {
      BeforeOrAfter(fs[..|fs| - 1], expected, digest);
      ArmingRoundTrip(fs[0].cmdline);
      StoppedStep(fs[0].cmdline, fs[|fs| - 2], expected, digest, fs[|fs| - 1]);
    }
  }

  /** An apply succeeds exactly if the file is as expected and unarmed, fits when armed, and nothing is in its way. */
  lemma {:induction false} SucceedsExactlyWhen(f: Files, expected: string, digest: Bytes -> string)
    ensures Apply(f, expected, digest).1 <==>
              && Armable(f, expected, digest)
              && |f.cmdline| + 29 <= MAX_CMDLINE
              && !Blocked(f, expected)
              && f.tmp == None
  {
    if Armable(f, expected, digest) {
      ArmingRoundTrip(f.cmdline);
    }
  }

  /**
    The size bound is checked on the result, after the replacement: a command line within 28 bytes of the bound is
    armed although the apply is refused, and no later run can read it.
   */
  lemma {:induction false} OversizeIsArmedAndRefused(f: Files, expected: string, digest: Bytes -> string)
    requires Armable(f, expected, digest) && !Blocked(f, expected) && f.tmp == None
    ensures var (d, ok) := Apply(f, expected, digest);
            && (!ok <==> |f.cmdline| + 29 > MAX_CMDLINE)
            && d.cmdline == Proposed(f.cmdline)
            && (!ok ==> !Readable(d.cmdline))
  {
    SucceedsExactlyWhen(f, expected, digest);
    ArmingRoundTrip(f.cmdline);
  }

  /** There are such files, whatever the digest. */
  lemma {:induction false} OversizeHappens(digest: Bytes -> string)
    ensures var f := Files(false, FullLine(), map[], None);
            var (d, ok) := Apply(f, digest(f.cmdline), digest);
            !ok && d.cmdline == Proposed(f.cmdline) && !Readable(d.cmdline)
  {
    FullLineFitsUnarmed();
    OversizeIsArmedAndRefused(Files(false, FullLine(), map[], None), digest(FullLine()), digest);
  }

  // ---------- one apply, call by call ----------

  datatype Call =
    | MakeDir
    | OpenBackup(name: string)
    | WriteBackup(name: string, value: Bytes)
    | SyncBackup(name: string)
    | SyncBackupDir
    | OpenTmp
    | WriteTmp(value: Bytes)
    | SyncTmp
    | Rename
    | SyncBootDir
    | SyncAll

  /** `_durable_backup` */
  function BackupCalls(backups: map<string, Bytes>, name: string, before: Bytes): seq<Call> {
    if name !in backups then [OpenBackup(name), WriteBackup(name, before), SyncBackup(name), SyncBackupDir]
    else if backups[name] == before then [SyncBackupDir]
    else []
  }

  /** `_atomic_replace`, which refuses a temporary that is there. */
  function ReplaceCalls(tmp: Option<Bytes>, value: Bytes): seq<Call> {
    if tmp.Some? then [] else [OpenTmp, WriteTmp(value), SyncTmp, Rename, SyncBootDir, SyncAll]
  }

  function ApplyCalls(f: Files, expected: string, digest: Bytes -> string): seq<Call> {
    if !Armable(f, expected, digest) then []
    else
      (if f.dir then [] else [MakeDir])
      + BackupCalls(f.backups, expected, f.cmdline)
      + (if Blocked(f, expected) then [] else ReplaceCalls(f.tmp, Proposed(f.cmdline)))
  }

  /** A directory change that no fsync has forced to the disk yet. */
  datatype Entry = Made | Linked(name: string) | LinkedTmp | Moved

  /** Contents that no fsync has forced to the disk yet. */
  datatype Unsynced = Nothing | Backup(name: string) | Tmp

  /**
    The visible files, those certainly on the disk, and what is only in memory; `draft` is what was written for the
    rename.
   */
  datatype World = World(vis: Files, disk: Files, pending: seq<Entry>, unsynced: Unsynced, draft: Bytes)

  function Settled(f: Files): World {
    World(f, f, [], Nothing, [])
  }

  function Commit(w: World, e: Entry, disk: Files): Files {
    match e
    case Made => WithDir(disk)
    case Linked(name) =>
      if name in w.vis.backups then disk.(backups := disk.backups[name := w.vis.backups[name]]) else disk
    case LinkedTmp => disk.(tmp := Some(w.draft))
    case Moved => disk.(cmdline := w.draft, tmp := None)
  }

  /**
    The backup directory's own entry lies in the boot directory or, if `elsewhere`, in one that is never synced by
    itself.
   */
  predicate InDir(e: Entry, c: Call, elsewhere: bool) {
    match e
    case Linked(_) => c.SyncBackupDir?
    case Made => c.SyncBootDir? && !elsewhere
    case LinkedTmp => c.SyncBootDir?
    case Moved => c.SyncBootDir?
  }

  function CommitDir(w: World, c: Call, elsewhere: bool, pending: seq<Entry>, disk: Files): Files {
    if pending == [] then disk
    else CommitDir(w, c, elsewhere, pending[1..],
                   if InDir(pending[0], c, elsewhere) then Commit(w, pending[0], disk) else disk)
  }

  function Remaining(c: Call, elsewhere: bool, pending: seq<Entry>): seq<Entry> {
    if pending == [] then []
    else (if InDir(pending[0], c, elsewhere) then [] else [pending[0]]) + Remaining(c, elsewhere, pending[1..])
  }

  function Perform(c: Call, w: World, elsewhere: bool): World {
    match c
    case MakeDir => w.(vis := WithDir(w.vis), pending := w.pending + [Made])
    case OpenBackup(name) =>
      w.(vis := WithBackup(w.vis, name, []), pending := w.pending + [Linked(name)], unsynced := Backup(name))
    case WriteBackup(name, value) => w.(vis := WithBackup(w.vis, name, value))
    case SyncBackup(_) => w.(unsynced := Nothing)
    case OpenTmp => w.(vis := WithTmp(w.vis, []), pending := w.pending + [LinkedTmp], unsynced := Tmp, draft := [])
    case WriteTmp(value) => w.(vis := WithTmp(w.vis, value), draft := value)
    case SyncTmp => w.(unsynced := Nothing)
    case Rename => w.(vis := w.vis.(cmdline := w.draft, tmp := None), pending := w.pending + [Moved])
    case SyncAll => Settled(w.vis)
    case _ => w.(disk := CommitDir(w, c, elsewhere, w.pending, w.disk), pending := Remaining(c, elsewhere, w.pending))
  }

  function PerformAll(calls: seq<Call>, w: World, elsewhere: bool): World {
    if calls == [] then w else PerformAll(calls[1..], Perform(calls[0], w, elsewhere), elsewhere)
  }

  /** Any of the pending directory changes may have reached the disk. */
  ghost predicate Persisted(w: World, pending: seq<Entry>, disk: Files, d: Files)
    decreases |pending|
  {
    if pending == [] then d == disk
    else Persisted(w, pending[1..], disk, d) || Persisted(w, pending[1..], Commit(w, pending[0], disk), d)
  }

  /** Unsynced contents may be any bytes. */
  ghost predicate Scrambled(unsynced: Unsynced, base: Files, d: Files) {
    || d == base
    || (unsynced.Backup? && unsynced.name in base.backups
        && exists c: Bytes :: d == WithBackup(base, unsynced.name, c))
    || (unsynced.Tmp? && base.tmp.Some? && exists c: Bytes :: d == WithTmp(base, c))
  }

  /** Backups cannot be found without their directory. */
  function Found(d: Files): Files {
    if d.dir then d else d.(backups := map[])
  }

  ghost predicate AfterPowerLoss(w: World, d: Files) {
    exists base, raw :: Persisted(w, w.pending, w.disk, base) && Scrambled(w.unsynced, base, raw) && d == Found(raw)
  }

  /** The power fails before, between or after `calls`. */
  ghost predicate LossDuring(calls: seq<Call>, w: World, elsewhere: bool, d: Files)
    decreases |calls|
  {
    || AfterPowerLoss(w, d)
    || (calls != [] && LossDuring(calls[1..], Perform(calls[0], w, elsewhere), elsewhere, d))
  }

  /** Visible at some moment of `calls`, the moments of a write included. */
  ghost predicate SeenDuring(calls: seq<Call>, w: World, elsewhere: bool, d: Files)
    decreases |calls|
  {
    || d == w.vis
    || (calls != [] && BeingWritten(calls[0], w, d))
    || (calls != [] && SeenDuring(calls[1..], Perform(calls[0], w, elsewhere), elsewhere, d))
  }

  ghost predicate BeingWritten(c: Call, w: World, d: Files) {
    || (c.WriteBackup? && exists b: Bytes :: d == WithBackup(w.vis, c.name, b))
    || (c.WriteTmp? && exists b: Bytes :: d == WithTmp(w.vis, b))
  }

  /** `d` may be on the disk when the power fails during an apply that began on the settled files `f`. */
  ghost predicate CutApply(f: Files, expected: string, digest: Bytes -> string, elsewhere: bool, d: Files) {
    LossDuring(ApplyCalls(f, expected, digest), Settled(f), elsewhere, d)
  }

  /** Found after a stop or a power loss during `calls`. */
  ghost predicate ShowsDuring(calls: seq<Call>, w: World, elsewhere: bool, d: Files) {
    LossDuring(calls, w, elsewhere, d) || SeenDuring(calls, w, elsewhere, d)
  }

  // ---------- sequences of calls ----------

  lemma Cons(c: Call, rest: seq<Call>, w: World, elsewhere: bool, d: Files)
    ensures PerformAll([c] + rest, w, elsewhere) == PerformAll(rest, Perform(c, w, elsewhere), elsewhere)
    ensures LossDuring([c] + rest, w, elsewhere, d) <==>
              AfterPowerLoss(w, d) || LossDuring(rest, Perform(c, w, elsewhere), elsewhere, d)
    ensures SeenDuring([c] + rest, w, elsewhere, d) <==>
              d == w.vis || BeingWritten(c, w, d) || SeenDuring(rest, Perform(c, w, elsewhere), elsewhere, d)
  {
    assert ([c] + rest)[1..] == rest;
  }

  lemma {:induction false} Append(a: seq<Call>, b: seq<Call>, w: World, elsewhere: bool, d: Files)
    ensures PerformAll(a + b, w, elsewhere) == PerformAll(b, PerformAll(a, w, elsewhere), elsewhere)
    ensures LossDuring(a + b, w, elsewhere, d) <==>
              LossDuring(a, w, elsewhere, d) || LossDuring(b, PerformAll(a, w, elsewhere), elsewhere, d)
    ensures SeenDuring(a + b, w, elsewhere, d) <==>
              SeenDuring(a, w, elsewhere, d) || SeenDuring(b, PerformAll(a, w, elsewhere), elsewhere, d)
    decreases |a|
  {
    if a == [] {
      assert a + b == b;
      Begins(b, w, elsewhere, d);
    } else {
      Append(a[1..], b, Perform(a[0], w, elsewhere), elsewhere, d);
      assert a + b == [a[0]] + (a[1..] + b);
      Cons(a[0], a[1..] + b, w, elsewhere, d);
    }
  }

  /** Every sequence of calls begins where it begins. */
  lemma Begins(calls: seq<Call>, w: World, elsewhere: bool, d: Files)
    ensures AfterPowerLoss(w, d) ==> LossDuring(calls, w, elsewhere, d)
    ensures d == w.vis ==> SeenDuring(calls, w, elsewhere, d)
  {
  }

  // ---------- losses in single worlds ----------

  lemma {:induction false} SettledLoss(f: Files, d: Files)
    requires f.Sound()
    ensures AfterPowerLoss(Settled(f), d) ==> d == f
  {
  }

  lemma {:induction false} PersistedOne(w: World, e: Entry, disk: Files, d: Files)
    ensures Persisted(w, [e], disk, d) <==> d == disk || d == Commit(w, e, disk)
  {
    assert [e][1..] == [];
    assert Persisted(w, [], disk, d) <==> d == disk;
  }

  /** While a new backup's entry is pending, it is missing, whole or torn after a power loss. */
  lemma {:induction false} BackupLoss(w: World, f: Files, n: string, d: Files)
    requires f.dir && w.disk == f && w.pending == [Linked(n)] && (w.unsynced == Backup(n) || w.unsynced == Nothing)
    requires n in w.vis.backups && AfterPowerLoss(w, d)
    ensures d == f || exists c: Bytes :: d == WithBackup(f, n, c)
  {
    var base, raw :| Persisted(w, w.pending, w.disk, base) && Scrambled(w.unsynced, base, raw) && d == Found(raw);
    PersistedOne(w, Linked(n), f, base);
    var v := w.vis.backups[n];
    assert base == f || base == WithBackup(f, n, v);
    if raw != base {
      var c: Bytes :| raw == WithBackup(base, n, c);
      BackupTwice(f, n, v, c);
    }
  }

  lemma BackupTwice(f: Files, n: string, a: Bytes, b: Bytes)
    ensures WithBackup(WithBackup(f, n, a), n, b) == WithBackup(f, n, b)
  {
  }

  lemma {:induction false} TmpLoss(w: World, f: Files, d: Files)
    requires f.dir && f.tmp == None && w.disk == f && w.pending == [LinkedTmp] &&
              (w.unsynced == Tmp || w.unsynced == Nothing)
    requires AfterPowerLoss(w, d)
    ensures d == f || exists c: Bytes :: d == WithTmp(f, c)
  {
    var base, raw :| Persisted(w, w.pending, w.disk, base) && Scrambled(w.unsynced, base, raw) && d == Found(raw);
    PersistedOne(w, LinkedTmp, f, base);
    assert base == f || base == WithTmp(f, w.draft);
    if raw != base {
      var c: Bytes :| raw == WithTmp(base, c);
      assert d == WithTmp(f, c);
    }
  }

  lemma {:induction false} RenameLoss(w: World, f: Files, d: Files)
    requires f.dir && f.tmp == None && w.disk == f && w.pending == [LinkedTmp, Moved] && w.unsynced == Nothing
    requires AfterPowerLoss(w, d)
    ensures d == f || d == WithTmp(f, w.draft) || d == f.(cmdline := w.draft)
  {
    var base, raw :| Persisted(w, w.pending, w.disk, base) && Scrambled(w.unsynced, base, raw) && d == Found(raw);
    assert w.pending[1..] == [Moved];
    PersistedOne(w, Moved, f, base);
    PersistedOne(w, Moved, WithTmp(f, w.draft), base);
  }

  // ---------- the phases of an apply ----------

  function BackupOpened(f: Files, n: string): World {
    World(WithBackup(f, n, []), f, [Linked(n)], Backup(n), [])
  }

  function BackupWritten(f: Files, n: string, v: Bytes, unsynced: Unsynced): World {
    World(WithBackup(f, n, v), f, [Linked(n)], unsynced, [])
  }

  lemma {:induction false} BackupWorlds(f: Files, n: string, v: Bytes, elsewhere: bool)
    ensures Perform(OpenBackup(n), Settled(f), elsewhere) == BackupOpened(f, n)
    ensures Perform(WriteBackup(n, v), BackupOpened(f, n), elsewhere) == BackupWritten(f, n, v, Backup(n))
    ensures Perform(SyncBackup(n), BackupWritten(f, n, v, Backup(n)), elsewhere) == BackupWritten(f, n, v, Nothing)
    ensures Perform(SyncBackupDir, BackupWritten(f, n, v, Nothing), elsewhere) == Settled(WithBackup(f, n, v))
    ensures Perform(SyncBackupDir, Settled(f), elsewhere) == Settled(f)
  {
    BackupTwice(f, n, [], v);
    assert [] + [Linked(n)] == [Linked(n)] && [Linked(n)][1..] == [];
    var w := BackupWritten(f, n, v, Nothing);
    assert CommitDir(w, SyncBackupDir, elsewhere, [], WithBackup(f, n, v)) == WithBackup(f, n, v);
    assert Remaining(SyncBackupDir, elsewhere, []) == [];
    assert CommitDir(w, SyncBackupDir, elsewhere, [Linked(n)], f) == WithBackup(f, n, v);
    assert Remaining(SyncBackupDir, elsewhere, [Linked(n)]) == [];
  }

  /** A new backup in a durable directory. */
  lemma {:induction false} NewBackup(f: Files, n: string, v: Bytes, elsewhere: bool, d: Files)
    requires f.dir
    ensures var calls := [OpenBackup(n), WriteBackup(n, v), SyncBackup(n), SyncBackupDir];
            && PerformAll(calls, Settled(f), elsewhere) == Settled(WithBackup(f, n, v))
            && (ShowsDuring(calls, Settled(f), elsewhere, d) ==>
                  d == f || exists c: Bytes :: d == WithBackup(f, n, c))
  {
    var w1, w2, w3 := BackupOpened(f, n), BackupWritten(f, n, v, Backup(n)), BackupWritten(f, n, v, Nothing);
    BackupWorlds(f, n, v, elsewhere);
    SettledLoss(f, d);
    SettledLoss(WithBackup(f, n, v), d);
    if AfterPowerLoss(w1, d) { BackupLoss(w1, f, n, d); }
    if AfterPowerLoss(w2, d) { BackupLoss(w2, f, n, d); }
    if AfterPowerLoss(w3, d) { BackupLoss(w3, f, n, d); }
    if BeingWritten(WriteBackup(n, v), w1, d) {
      var b: Bytes :| d == WithBackup(WithBackup(f, n, []), n, b);
      BackupTwice(f, n, [], b);
    }
    assert [OpenBackup(n), WriteBackup(n, v), SyncBackup(n), SyncBackupDir]
        == [OpenBackup(n)] + ([WriteBackup(n, v)] + ([SyncBackup(n)] + ([SyncBackupDir] + [])));
    Cons(OpenBackup(n), [WriteBackup(n, v)] + ([SyncBackup(n)] + ([SyncBackupDir] + [])), Settled(f), elsewhere, d);
    Cons(WriteBackup(n, v), [SyncBackup(n)] + ([SyncBackupDir] + []), w1, elsewhere, d);
    Cons(SyncBackup(n), [SyncBackupDir] + [], w2, elsewhere, d);
    Cons(SyncBackupDir, [], w3, elsewhere, d);
  }

  lemma {:induction false} BackupPhase(f: Files, expected: string, elsewhere: bool, d: Files)
    requires f.dir && !Blocked(f, expected)
    ensures PerformAll(BackupCalls(f.backups, expected, f.cmdline), Settled(f), elsewhere) ==
              Settled(Saved(f, expected))
    ensures ShowsDuring(BackupCalls(f.backups, expected, f.cmdline), Settled(f), elsewhere, d) ==>
              StoppedBackup(f, expected, d)
  {
    assert WithDir(f) == f;
    if expected in f.backups {
      assert Saved(f, expected) == f;
      BackupWorlds(f, expected, f.cmdline, elsewhere);
      assert [SyncBackupDir] == [SyncBackupDir] + [];
      Cons(SyncBackupDir, [], Settled(f), elsewhere, d);
      SettledLoss(f, d);
    } else {
      NewBackup(f, expected, f.cmdline, elsewhere, d);
    }
  }

  function TmpOpened(f: Files): World {
    World(WithTmp(f, []), f, [LinkedTmp], Tmp, [])
  }

  function TmpWritten(f: Files, v: Bytes, unsynced: Unsynced): World {
    World(WithTmp(f, v), f, [LinkedTmp], unsynced, v)
  }

  function Renamed(f: Files, v: Bytes): World {
    World(f.(cmdline := v), f, [LinkedTmp, Moved], Nothing, v)
  }

  lemma {:induction false} ReplaceWorlds(f: Files, v: Bytes, elsewhere: bool)
    requires f.tmp == None
    ensures var g := f.(cmdline := v);
            && Perform(OpenTmp, Settled(f), elsewhere) == TmpOpened(f)
            && Perform(WriteTmp(v), TmpOpened(f), elsewhere) == TmpWritten(f, v, Tmp)
            && Perform(SyncTmp, TmpWritten(f, v, Tmp), elsewhere) == TmpWritten(f, v, Nothing)
            && Perform(Rename, TmpWritten(f, v, Nothing), elsewhere) == Renamed(f, v)
            && Perform(SyncBootDir, Renamed(f, v), elsewhere) == Settled(g).(draft := v)
            && Perform(SyncAll, Settled(g).(draft := v), elsewhere) == Settled(g)
  {
    assert [] + [LinkedTmp] == [LinkedTmp] && [LinkedTmp] + [Moved] == [LinkedTmp, Moved];
    assert [LinkedTmp, Moved][1..] == [Moved] && [Moved][1..] == [];
    var w := Renamed(f, v);
    assert CommitDir(w, SyncBootDir, elsewhere, [Moved], WithTmp(f, v)) == f.(cmdline := v);
    assert Remaining(SyncBootDir, elsewhere, [Moved]) == [];
  }

  lemma {:induction false} DraftIsIdle(f: Files, v: Bytes, d: Files)
    requires f.Sound()
    ensures AfterPowerLoss(Settled(f).(draft := v), d) ==> d == f
  {
  }

  /** A replacement, its backup being settled. */
  lemma {:induction false} ReplacePhase(f: Files, v: Bytes, elsewhere: bool, d: Files)
    requires f.dir && f.tmp == None
    ensures ShowsDuring(ReplaceCalls(f.tmp, v), Settled(f), elsewhere, d) ==>
              d == f || (exists c: Bytes :: d == WithTmp(f, c)) || d == f.(cmdline := v)
  {
    var g := f.(cmdline := v);
    var w1, w2, w3, w4, w5 := TmpOpened(f), TmpWritten(f, v, Tmp), TmpWritten(f, v, Nothing), Renamed(f, v),
        Settled(g).(draft := v);
    ReplaceWorlds(f, v, elsewhere);
    SettledLoss(f, d);
    SettledLoss(g, d);
    DraftIsIdle(g, v, d);
    if AfterPowerLoss(w1, d) { TmpLoss(w1, f, d); }
    if AfterPowerLoss(w2, d) { TmpLoss(w2, f, d); }
    if AfterPowerLoss(w3, d) { TmpLoss(w3, f, d); }
    if AfterPowerLoss(w4, d) { RenameLoss(w4, f, d); }
    if BeingWritten(WriteTmp(v), w1, d) {
      var b: Bytes :| d == WithTmp(w1.vis, b);
      assert d == WithTmp(f, b);
    }
    var l5 := [SyncAll] + [];
    var l4 := [SyncBootDir] + l5;
    var l3 := [Rename] + l4;
    var l2 := [SyncTmp] + l3;
    var l1 := [WriteTmp(v)] + l2;
    assert ReplaceCalls(f.tmp, v) == [OpenTmp] + l1;
    Cons(OpenTmp, l1, Settled(f), elsewhere, d);
    Cons(WriteTmp(v), l2, w1, elsewhere, d);
    Cons(SyncTmp, l3, w2, elsewhere, d);
    Cons(Rename, l4, w3, elsewhere, d);
    Cons(SyncBootDir, l5, w4, elsewhere, d);
    Cons(SyncAll, [], w5, elsewhere, d);
  }

  // ---------- stops and power losses of whole applies ----------

  lemma {:induction false} ApplyInDir(f: Files, expected: string, digest: Bytes -> string)
    requires f.dir && Armable(f, expected, digest) && !Blocked(f, expected)
    ensures ApplyCalls(f, expected, digest) ==
              BackupCalls(f.backups, expected, f.cmdline) + ReplaceCalls(f.tmp, Proposed(f.cmdline))
  {
    assert [] + BackupCalls(f.backups, expected, f.cmdline) == BackupCalls(f.backups, expected, f.cmdline);
  }

  /** With a durable backup directory, a power loss leaves nothing that a stop of the process could not leave. */
  lemma {:induction false} ShownIsStopped(f: Files, expected: string, digest: Bytes -> string, elsewhere: bool,
          d: Files)
    requires f.dir && ShowsDuring(ApplyCalls(f, expected, digest), Settled(f), elsewhere, d)
    ensures StoppedApply(f, expected, digest, d)
  {
    SettledLoss(f, d);
    if Armable(f, expected, digest) && !Blocked(f, expected) {
      var saved := Saved(f, expected);
      var a, b := BackupCalls(f.backups, expected, f.cmdline), ReplaceCalls(saved.tmp, Proposed(f.cmdline));
      ApplyInDir(f, expected, digest);
      BackupPhase(f, expected, elsewhere, d);
      Append(a, b, Settled(f), elsewhere, d);
      SettledLoss(saved, d);
      if saved.tmp.None? {
        ReplacePhase(saved, Proposed(f.cmdline), elsewhere, d);
      }
    }
  }

  /** Disks found by successive applies, each of them cut by a power loss. */
  ghost predicate PowerCuts(fs: seq<Files>, expected: string, digest: Bytes -> string, elsewhere: bool) {
    && fs != []
    && forall i | 0 < i < |fs| :: CutApply(fs[i - 1], expected, digest, elsewhere, fs[i])
  }

  lemma {:induction false} PowerCutsPrefix(fs: seq<Files>, expected: string, digest: Bytes -> string, elsewhere: bool)
    requires PowerCuts(fs, expected, digest, elsewhere) && |fs| > 1
    ensures PowerCuts(fs[..|fs| - 1], expected, digest, elsewhere)
    ensures CutApply(fs[|fs| - 2], expected, digest, elsewhere, fs[|fs| - 1])
  {
  }

  lemma {:induction false} OneMoreStop(fs: seq<Files>, expected: string, digest: Bytes -> string, d: Files)
    requires StoppedApplies(fs, expected, digest) && StoppedApply(fs[|fs| - 1], expected, digest, d)
    ensures StoppedApplies(fs + [d], expected, digest)
    ensures fs[|fs| - 1].dir ==> d.dir
  {
    var all := fs + [d];
    forall i | 0 < i < |all|
      ensures StoppedApply(all[i - 1], expected, digest, all[i])
    {
      assert all[i - 1] == fs[i - 1];
    }
  }

  lemma {:induction false} CutsAreStops(fs: seq<Files>, expected: string, digest: Bytes -> string, elsewhere: bool)
    requires PowerCuts(fs, expected, digest, elsewhere) && fs[0].dir
    ensures StoppedApplies(fs, expected, digest) && fs[|fs| - 1].dir
  {
    if |fs| > 1 {
      var p, d := fs[..|fs| - 1], fs[|fs| - 1];
      PowerCutsPrefix(fs, expected, digest, elsewhere);
      CutsAreStops(p, expected, digest, elsewhere);
      ShownIsStopped(p[|p| - 1], expected, digest, elsewhere, d);
      OneMoreStop(p, expected, digest, d);
      assert p + [d] == fs;
    }
  }

  /** Power-loss safety: with a durable backup directory, an armed command line has its exact backup on the disk. */
  lemma {:induction false} PowerCutsKeepTheBackup(fs: seq<Files>, expected: string, digest: Bytes -> string,
          elsewhere: bool)
    requires PowerCuts(fs, expected, digest, elsewhere) && fs[0].dir
    requires Readable(fs[0].cmdline) && Unarmed(Tokens(Body(fs[0].cmdline)))
    ensures BeforeOrBackedUpAfter(fs[0].cmdline, fs[|fs| - 1], digest)
  {
    CutsAreStops(fs, expected, digest, elsewhere);
    BeforeOrAfter(fs, expected, digest);
  }

  // ---------- a backup directory that is not durable yet ----------

  lemma {:induction false} MadeWorlds(f: Files, n: string, v: Bytes, elsewhere: bool)
    requires !f.dir
    ensures var w0 := Perform(MakeDir, Settled(f), elsewhere);
            && w0 == World(WithDir(f), f, [Made], Nothing, [])
            && PerformAll([OpenBackup(n), WriteBackup(n, v), SyncBackup(n), SyncBackupDir], w0, elsewhere)
               == World(WithBackup(WithDir(f), n, v), WithBackup(f, n, v), [Made], Nothing, [])
  {
    var g := WithDir(f);
    var w0 := World(g, f, [Made], Nothing, []);
    var w1 := World(WithBackup(g, n, []), f, [Made, Linked(n)], Backup(n), []);
    var w2 := World(WithBackup(g, n, v), f, [Made, Linked(n)], Backup(n), []);
    var w3 := w2.(unsynced := Nothing);
    BackupTwice(g, n, [], v);
    assert [] + [Made] == [Made] && [Made] + [Linked(n)] == [Made, Linked(n)];
    assert [Made, Linked(n)][1..] == [Linked(n)] && [Linked(n)][1..] == [];
    assert CommitDir(w3, SyncBackupDir, elsewhere, [], WithBackup(f, n, v)) == WithBackup(f, n, v);
    assert CommitDir(w3, SyncBackupDir, elsewhere, [Linked(n)], f) == WithBackup(f, n, v);
    assert CommitDir(w3, SyncBackupDir, elsewhere, [Made, Linked(n)], f) == WithBackup(f, n, v);
    assert Remaining(SyncBackupDir, elsewhere, []) == [] && Remaining(SyncBackupDir, elsewhere, [Linked(n)]) == [];
    assert Remaining(SyncBackupDir, elsewhere, [Made, Linked(n)]) == [Made];
    Cons(OpenBackup(n), [WriteBackup(n, v)] + ([SyncBackup(n)] + ([SyncBackupDir] + [])), w0, elsewhere, f);
    Cons(WriteBackup(n, v), [SyncBackup(n)] + ([SyncBackupDir] + []), w1, elsewhere, f);
    Cons(SyncBackup(n), [SyncBackupDir] + [], w2, elsewhere, f);
    Cons(SyncBackupDir, [], w3, elsewhere, f);
    assert [OpenBackup(n), WriteBackup(n, v), SyncBackup(n), SyncBackupDir]
        == [OpenBackup(n)] + ([WriteBackup(n, v)] + ([SyncBackup(n)] + ([SyncBackupDir] + [])));
  }

  function Overtaking(vis: Files, disk: Files, pending: seq<Entry>, unsynced: Unsynced, v: Bytes): World {
    World(vis, disk, [Made] + pending, unsynced, v)
  }

  lemma {:induction false} OvertakingWorlds(g: Files, disk: Files, v: Bytes, elsewhere: bool)
    requires g.tmp == None
    ensures Perform(OpenTmp, Overtaking(g, disk, [], Nothing, []), elsewhere)
         == Overtaking(WithTmp(g, []), disk, [LinkedTmp], Tmp, [])
    ensures Perform(WriteTmp(v), Overtaking(WithTmp(g, []), disk, [LinkedTmp], Tmp, []), elsewhere)
         == Overtaking(WithTmp(g, v), disk, [LinkedTmp], Tmp, v)
    ensures Perform(SyncTmp, Overtaking(WithTmp(g, v), disk, [LinkedTmp], Tmp, v), elsewhere)
         == Overtaking(WithTmp(g, v), disk, [LinkedTmp], Nothing, v)
    ensures Perform(Rename, Overtaking(WithTmp(g, v), disk, [LinkedTmp], Nothing, v), elsewhere)
         == Overtaking(g.(cmdline := v), disk, [LinkedTmp, Moved], Nothing, v)
  {
    assert [Made] + [] + [LinkedTmp] == [Made] + [LinkedTmp] &&
           [Made] + [LinkedTmp] + [Moved] == [Made] + [LinkedTmp, Moved];
    assert WithTmp(WithTmp(g, []), v) == WithTmp(g, v);
    assert WithTmp(g, v).(cmdline := v, tmp := None) == g.(cmdline := v);
  }

  /** The rename may reach the disk while the entry of the backup's directory does not. */
  lemma {:induction false} RenameOvertakes(g: Files, disk: Files, v: Bytes, elsewhere: bool)
    requires g.tmp == None && disk.tmp == None && !disk.dir
    ensures LossDuring(ReplaceCalls(g.tmp, v), Overtaking(g, disk, [], Nothing, []), elsewhere,
              Found(disk.(cmdline := v)))
  {
    var d := Found(disk.(cmdline := v));
    var w4 := Overtaking(g.(cmdline := v), disk, [LinkedTmp, Moved], Nothing, v);
    OvertakingWorlds(g, disk, v, elsewhere);
    var l4: seq<Call> := [SyncBootDir, SyncAll];
    OnlyMoved(w4, disk);
    Begins(l4, w4, elsewhere, d);
    assert ReplaceCalls(g.tmp, v) == [OpenTmp] + ([WriteTmp(v)] + ([SyncTmp] + ([Rename] + l4)));
    Cons(Rename, l4, Overtaking(WithTmp(g, v), disk, [LinkedTmp], Nothing, v), elsewhere, d);
    Cons(SyncTmp, [Rename] + l4, Overtaking(WithTmp(g, v), disk, [LinkedTmp], Tmp, v), elsewhere, d);
    Cons(WriteTmp(v), [SyncTmp] + ([Rename] + l4), Overtaking(WithTmp(g, []), disk, [LinkedTmp], Tmp, []), elsewhere,
        d);
    Cons(OpenTmp, [WriteTmp(v)] + ([SyncTmp] + ([Rename] + l4)), Overtaking(g, disk, [], Nothing, []), elsewhere, d);
  }

  lemma {:induction false} OnlyMoved(w: World, disk: Files)
    requires w.disk == disk && w.pending == [Made] + [LinkedTmp, Moved] && w.unsynced == Nothing && disk.tmp == None
    ensures AfterPowerLoss(w, Found(disk.(cmdline := w.draft)))
  {
    var base := disk.(cmdline := w.draft);
    assert w.pending[1..] == [LinkedTmp, Moved] && [LinkedTmp, Moved][1..] == [Moved];
    PersistedOne(w, Moved, disk, base);
    assert Commit(w, Moved, disk) == base;
    assert Persisted(w, [LinkedTmp, Moved], disk, base);
    assert Persisted(w, w.pending, w.disk, base) && Scrambled(w.unsynced, base, base);
  }

  /** So an apply that had to make the directory can be cut off armed and without a backup. */
  lemma {:induction false} FreshDirectoryCanBeLost(f: Files, expected: string, digest: Bytes -> string, elsewhere: bool)
    requires f.Sound() && !f.dir && Armable(f, expected, digest) && f.tmp == None
    ensures CutApply(f, expected, digest, elsewhere, Files(false, Proposed(f.cmdline), map[], None))
  {
    var v, d := Proposed(f.cmdline), Files(false, Proposed(f.cmdline), map[], None);
    var backup := [OpenBackup(expected), WriteBackup(expected, f.cmdline), SyncBackup(expected), SyncBackupDir];
    var saved := WithBackup(WithDir(f), expected, f.cmdline);
    var w0 := World(WithDir(f), f, [Made], Nothing, []);
    var w1 := World(saved, WithBackup(f, expected, f.cmdline), [Made], Nothing, []);
    MadeWorlds(f, expected, f.cmdline, elsewhere);
    RenameOvertakes(saved, w1.disk, v, elsewhere);
    assert [Made] + [] == [Made];
    assert Found(w1.disk.(cmdline := v)) == d;
    assert ReplaceCalls(f.tmp, v) == ReplaceCalls(saved.tmp, v);
    assert ApplyCalls(f, expected, digest) == [MakeDir] + (backup + ReplaceCalls(saved.tmp, v));
    Append(backup, ReplaceCalls(saved.tmp, v), w0, elsewhere, d);
    Cons(MakeDir, backup + ReplaceCalls(saved.tmp, v), Settled(f), elsewhere, d);
  }

  /** Without a rename the command line on the disk stays. */
  lemma {:induction false} NoRenameNoChange(calls: seq<Call>, w: World, elsewhere: bool, d: Files)
    requires Rename !in calls && SyncAll !in calls && Moved !in w.pending && LossDuring(calls, w, elsewhere, d)
    ensures d.cmdline == w.disk.cmdline
    decreases |calls|
  {
    if AfterPowerLoss(w, d) {
      var base, raw :| Persisted(w, w.pending, w.disk, base) && Scrambled(w.unsynced, base, raw) && d == Found(raw);
      PersistedKeeps(w, w.pending, w.disk, base);
    } else {
      var c := calls[0];
      CommitKeeps(w, c, elsewhere, w.pending, w.disk);
      NoRenameNoChange(calls[1..], Perform(c, w, elsewhere), elsewhere, d);
    }
  }

  lemma {:induction false} PersistedKeeps(w: World, pending: seq<Entry>, disk: Files, d: Files)
    requires Moved !in pending && Persisted(w, pending, disk, d)
    ensures d.cmdline == disk.cmdline
    decreases |pending|
  {
    if pending != [] {
      assert pending[0] != Moved;
      if Persisted(w, pending[1..], disk, d) {
        PersistedKeeps(w, pending[1..], disk, d);
      } else {
        PersistedKeeps(w, pending[1..], Commit(w, pending[0], disk), d);
      }
    }
  }

  lemma {:induction false} CommitKeeps(w: World, c: Call, elsewhere: bool, pending: seq<Entry>, disk: Files)
    requires Moved !in pending
    ensures CommitDir(w, c, elsewhere, pending, disk).cmdline == disk.cmdline &&
              Moved !in Remaining(c, elsewhere, pending)
    decreases |pending|
  {
    if pending != [] {
      assert pending[0] != Moved;
      CommitKeeps(w, c, elsewhere, pending[1..],
                  if InDir(pending[0], c, elsewhere) then Commit(w, pending[0], disk) else disk);
    }
  }

  /**
    An armed command line keeps its exact backup through every power loss exactly if the backup directory was durable
    before the apply, or the apply does not get to the replacement.
   */
  lemma {:induction false} BackupSurvivesExactlyWhen(f: Files, expected: string, digest: Bytes -> string,
          elsewhere: bool)
    requires f.Sound()
    ensures (forall d :: CutApply(f, expected, digest, elsewhere, d) ==>
               BeforeOrBackedUpAfter(f.cmdline, d, digest)) <==>
              f.dir || !Armable(f, expected, digest) || f.tmp.Some?
  {
    if f.dir {
      forall d | CutApply(f, expected, digest, elsewhere, d)
        ensures BeforeOrBackedUpAfter(f.cmdline, d, digest)
      {
        ShownIsStopped(f, expected, digest, elsewhere, d);
        OneStop(f, expected, digest, d);
      }
    } else if !Armable(f, expected, digest) || f.tmp.Some? {
      var calls := ApplyCalls(f, expected, digest);
      assert Rename !in calls && SyncAll !in calls;
      forall d | CutApply(f, expected, digest, elsewhere, d)
        ensures BeforeOrBackedUpAfter(f.cmdline, d, digest)
      {
        NoRenameNoChange(calls, Settled(f), elsewhere, d);
      }
    } else {
      var d := Files(false, Proposed(f.cmdline), map[], None);
      FreshDirectoryCanBeLost(f, expected, digest, elsewhere);
      ArmingRoundTrip(f.cmdline);
      assert !BeforeOrBackedUpAfter(f.cmdline, d, digest);
    }
  }

  // ---------- the three modes of the helper ----------

  datatype Request = Verify | DryRun | Arm(expected: string)

  /** Another process wrote something else to the command line while the backup was made. */
  predicate Drifted(f: Files, meanwhile: Option<Bytes>) {
    meanwhile.Some? && meanwhile.value != f.cmdline
  }

  /** An apply that passed its first checks, up to the replacement. */
  function Attempt(f: Files, expected: string, meanwhile: Option<Bytes>): (Files, bool) {
    if Blocked(f, expected) then (WithDir(f), false)
    else
      var saved := Saved(f, expected);
      if Drifted(f, meanwhile) then (saved.(cmdline := meanwhile.value), false)
      else if f.tmp.Some? then (saved, false)
      else (Replaced(saved), true)
  }

  function AttemptCalls(f: Files, expected: string, meanwhile: Option<Bytes>): seq<Call> {
    (if f.dir then [] else [MakeDir])
    + BackupCalls(f.backups, expected, f.cmdline)
    + (if Blocked(f, expected) || Drifted(f, meanwhile) then [] else ReplaceCalls(f.tmp, Proposed(f.cmdline)))
  }

  function PrepareCalls(f: Files, expected: string): seq<Call> {
    (if f.dir then [] else [MakeDir]) + BackupCalls(f.backups, expected, f.cmdline)
  }

  /** The calls of an attempt, after others. */
  lemma {:induction false} AttemptParts(f: Files, expected: string, meanwhile: Option<Bytes>, before: seq<Call>)
    ensures before + AttemptCalls(f, expected, meanwhile)
         == if Blocked(f, expected) || Drifted(f, meanwhile) then before + PrepareCalls(f, expected)
            else before + PrepareCalls(f, expected) + ReplaceCalls(f.tmp, Proposed(f.cmdline))
  {
    var a, b := PrepareCalls(f, expected), ReplaceCalls(f.tmp, Proposed(f.cmdline));
    assert a + [] == a && before + (a + b) == before + a + b;
  }

  predicate Verified(value: Bytes) {
    Readable(value) && Armed(Tokens(Body(value)))
  }

  /** The files afterwards, and whether the request was met. */
  function Answer(f: Files, request: Request, digest: Bytes -> string, meanwhile: Option<Bytes>): (Files, bool) {
    match request
    case Verify => (f, Verified(f.cmdline))
    case DryRun => (f, Readable(f.cmdline) && Unarmed(Tokens(Body(f.cmdline))))
    case Arm(expected) =>
      if !Armable(f, expected, digest) then (f, false)
      else
        var (d, ok) := Attempt(f, expected, meanwhile);
        (d, ok && Verified(d.cmdline))
  }

  function AnswerCalls(f: Files, request: Request, digest: Bytes -> string, meanwhile: Option<Bytes>): seq<Call> {
    if request.Arm? && Armable(f, request.expected, digest) then AttemptCalls(f, request.expected, meanwhile) else []
  }

  /** Undisturbed, arming is the apply of the theorems above. */
  lemma {:induction false} ArmingIsApply(f: Files, expected: string, digest: Bytes -> string)
    ensures Answer(f, Arm(expected), digest, None) == Apply(f, expected, digest)
    ensures AnswerCalls(f, Arm(expected), digest, None) == ApplyCalls(f, expected, digest)
  {
  }

  lemma {:induction false} VerifiedAnswers(d: Files, digest: Bytes -> string, again: string)
    requires Verified(d.cmdline)
    ensures Answer(d, Verify, digest, None) == (d, true)
    ensures Answer(d, DryRun, digest, None) == (d, false)
    ensures Answer(d, Arm(again), digest, None) == (d, false)
  {
  }

  /** What was armed is verified, would not be armed again by a dry run, and is not armed again. */
  lemma {:induction false} ArmedIsVerified(f: Files, expected: string, digest: Bytes -> string, again: string,
          meanwhile: Option<Bytes>)
    requires Answer(f, Arm(expected), digest, meanwhile).1
    ensures var d := Answer(f, Arm(expected), digest, meanwhile).0;
            && d.cmdline == Proposed(f.cmdline)
            && Answer(d, Verify, digest, None) == (d, true)
            && Answer(d, DryRun, digest, None) == (d, false)
            && Answer(d, Arm(again), digest, None) == (d, false)
            && BackedUp(d, f.cmdline, digest)
  {
    VerifiedAnswers(Answer(f, Arm(expected), digest, meanwhile).0, digest, again);
  }

  /** What another process wrote is not lost: the run is refused, leaves it, and keeps the backup of what was read. */
  lemma {:induction false} DriftIsRefused(f: Files, expected: string, digest: Bytes -> string, other: Bytes)
    requires Armable(f, expected, digest) && !Blocked(f, expected) && other != f.cmdline
    ensures var (d, ok) := Answer(f, Arm(expected), digest, Some(other));
            !ok && d.cmdline == other && d.tmp == f.tmp && BackedUp(d, f.cmdline, digest)
  {
  }

  // ---------- the helper as the source writes it ----------

  class CmdlineFiles {
    var dir: bool
    var cmdline: Bytes
    var backups: map<string, Bytes>
    var tmp: Option<Bytes>
    ghost var calls: seq<Call>  // every call that changed a file or forced one to the disk

    function Now(): Files
      reads this
    {
      Files(dir, cmdline, backups, tmp)
    }

    constructor (f: Files)
      ensures Now() == f && calls == []
    {
      dir, cmdline, backups, tmp, calls := f.dir, f.cmdline, f.backups, f.tmp, [];
    }

    method DurableBackup(name: string, before: Bytes) returns (ok: bool)
      modifies `dir, `backups, `calls
      ensures dir
      ensures ok <==> old(name in backups ==> backups[name] == before)
      ensures backups == if ok then old(backups)[name := before] else old(backups)
      ensures calls == old(calls) + ((if old(dir) then [] else [MakeDir]) + BackupCalls(old(backups), name, before))
    {
      if !dir {
        dir := true;
        calls := calls + [MakeDir];
      }
      if name in backups {
        if backups[name] != before {
          return false;
        }
        calls := calls + [SyncBackupDir];
        return true;
      }
      backups := backups[name := []];
      ghost var made := [OpenBackup(name)];
      backups := backups[name := before];
      made := made + [WriteBackup(name, before)];
      made := made + [SyncBackup(name)];
      if backups[name] != before {
        assert false;  // the readback of the new backup
      }
      made := made + [SyncBackupDir];
      calls := calls + made;
      ok := true;
    }

    method AtomicReplace(value: Bytes) returns (ok: bool)
      modifies `cmdline, `tmp, `calls
      ensures ok <==> old(tmp).None?
      ensures cmdline == if ok then value else old(cmdline)
      ensures tmp == old(tmp)
      ensures calls == old(calls) + ReplaceCalls(old(tmp), value)
    {
      if tmp.Some? {
        return false;
      }
      tmp := Some([]);
      ghost var made := [OpenTmp];
      tmp := Some(value);
      made := made + [WriteTmp(value)];
      made := made + [SyncTmp];
      cmdline, tmp := tmp.value, None;
      made := made + [Rename];
      made := made + [SyncBootDir];
      made := made + [SyncAll];
      calls := calls + made;
      ok := true;
    }

    method ArmAs(expected: string, meanwhile: Option<Bytes>) returns (ok: bool)
      modifies this
      ensures (Now(), ok) == Attempt(old(Now()), expected, meanwhile)
      ensures calls == old(calls) + AttemptCalls(old(Now()), expected, meanwhile)
    {
      ghost var f, calls0 := Now(), calls;
      AttemptParts(f, expected, meanwhile, calls0);
      var before := cmdline;
      var after := Proposed(before);
      ok := DurableBackup(expected, before);
      if !ok {
        return;
      }
      assert Now() == Saved(f, expected);
      if meanwhile.Some? {
        cmdline := meanwhile.value;  // another process
      }
      if cmdline != before {
        return false;
      }
      assert Now() == Saved(f, expected);
      ok := AtomicReplace(after);
    }

    method Run(request: Request, digest: Bytes -> string, meanwhile: Option<Bytes>) returns (ok: bool)
      modifies this
      ensures (Now(), ok) == Answer(old(Now()), request, digest, meanwhile)
      ensures calls == old(calls) + AnswerCalls(old(Now()), request, digest, meanwhile)
    {
      if !Readable(cmdline) {
        return false;
      }
      var tokens := Tokens(Body(cmdline));
      if request.Verify? {
        return Armed(tokens);
      }
      if !Unarmed(tokens) {
        return false;
      }
      if request.DryRun? {
        return true;
      }
      if digest(cmdline) != request.expected {
        return false;
      }
      ok := ArmAs(request.expected, meanwhile);
      if ok {
        ok := Readable(cmdline) && Armed(Tokens(Body(cmdline)));
      }
    }
  }
}
