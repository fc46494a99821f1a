/**
  The restartable journal replacement of the two recovery helpers: the refused journal is archived, a
  "prepared" audit is written, the journal is atomically replaced, and the audit is atomically completed.
  Both helpers run this protocol; they differ only in the byte strings collected in `Plan`.
 */
module RecoveryJournal {
  import opened Common

  /** The files of one recovery.  Archive, Audit and AuditTmp live in the audit directory. */
  datatype Name = Journal | Archive | Audit | JournalTmp | AuditTmp

  predicate InAuditDir(n: Name) {
    n.Archive? || n.Audit? || n.AuditTmp?
  }

  datatype Plan = Plan(source: Bytes, replacement: Bytes, prepared: Bytes, complete: Bytes) {
    predicate Known(b: Bytes) {
      b == source || b == replacement || b == prepared || b == complete
    }

    ghost predicate Valid() {
      && !Known([])
      && source != replacement && source != prepared && source != complete
      && replacement != prepared && replacement != complete && prepared != complete
    }
  }

  /** What a process sees: whether the audit directory exists, and the files' contents. */
  datatype Files = Files(dir: bool, at: map<Name, Bytes>) {
    predicate Holds(n: Name, b: Bytes) {
      n in at && at[n] == b
    }

    function Put(n: Name, b: Bytes): Files {
      Files(dir, at[n := b])
    }
  }

  // ---------- one run, as a list of file operations ----------

  /** A file operation of `recover`; `Refuse` ends a run that raises. */
  datatype Op = MkDir | Create(n: Name, value: Bytes) | Rename(tmp: Name, n: Name) | Refuse

  function Exec(op: Op, f: Files): Files {
    match op
    case MkDir => Files(true, f.at)
    case Create(n, v) => f.Put(n, v)
    case Rename(tmp, n) => if tmp in f.at then Files(f.dir, f.at[n := f.at[tmp]] - {tmp}) else f
    case Refuse => f
  }

  function ExecAll(ops: seq<Op>, f: Files): Files {
    if ops == [] then f else ExecAll(ops[1..], Exec(ops[0], f))
  }

  /** The checks every run makes before it may write. */
  predicate Accepts(p: Plan, f: Files) {
    && (f.Holds(Journal, p.source) || f.Holds(Journal, p.replacement))
    && (Archive in f.at ==> f.at[Archive] == p.source)
    && (if f.at[Journal] == p.replacement then
          Archive in f.at && (f.Holds(Audit, p.prepared) || f.Holds(Audit, p.complete))
        else
          Audit in f.at ==> Archive in f.at && f.at[Audit] == p.prepared)
  }

  predicate Restored(p: Plan, f: Files) {
    f.Holds(Journal, p.replacement) && f.Holds(Audit, p.complete)
  }

  /** `_atomic`: reuse a temporary with the right bytes, refuse another one, create a missing one; then rename. */
  function AtomicScript(tmp: Name, n: Name, v: Bytes, f: Files, rest: seq<Op>): seq<Op> {
    if tmp !in f.at then [Create(tmp, v), Rename(tmp, n)] + rest
    else if f.at[tmp] == v then [Rename(tmp, n)] + rest
    else [Refuse]
  }

  /** The journal's replacement, unless it is done, and the audit's completion. */
  function Replacement(p: Plan, f: Files): seq<Op> {
    var finish := AtomicScript(AuditTmp, Audit, p.complete, f, []);
    if f.Holds(Journal, p.source) then AtomicScript(JournalTmp, Journal, p.replacement, f, finish) else finish
  }

  function FromAudit(p: Plan, f: Files): seq<Op> {
    if Audit in f.at then Replacement(p, f) else [Create(Audit, p.prepared)] + Replacement(p, f)
  }

  function FromArchive(p: Plan, f: Files): seq<Op> {
    if Archive in f.at then FromAudit(p, f) else [Create(Archive, p.source)] + FromAudit(p, f)
  }

  /** The operations of one `recover(apply=True)` that is not interrupted. */
  function Script(p: Plan, f: Files): seq<Op> {
    if !Accepts(p, f) then [Refuse]
    else if Restored(p, f) then []
    else if f.dir then FromArchive(p, f)
    else [MkDir] + FromArchive(p, f)
  }

  // ---------- the states runs pass through ----------

  /** The files between two operations of a recovery that began on an untouched refused journal. */
  ghost predicate Clean(p: Plan, f: Files) {
    && Accepts(p, f)
    && (!f.dir ==> f.at.Keys <= {Journal})
    && (Audit in f.at ==> Archive in f.at)
    && (JournalTmp in f.at ==> Audit in f.at && f.Holds(Journal, p.source) && f.at[JournalTmp] == p.replacement)
    && (AuditTmp in f.at ==>
          f.Holds(Journal, p.replacement) && f.Holds(Audit, p.prepared) && f.at[AuditTmp] == p.complete)
  }

  /** The file a run from `f` would create next, cut off while being written. */
  ghost predicate Torn(p: Plan, f: Files) {
    exists g, n, c ::
      Clean(p, g) && TearsNext(p, g, n) && !p.Known(c) && f == g.Put(n, c)
  }

  ghost predicate TearsNext(p: Plan, g: Files, n: Name) {
    Script(p, g) != [] && Script(p, g)[0].Create? && Script(p, g)[0].n == n
  }

  ghost predicate Initial(p: Plan, f: Files) {
    f.at == map[Journal := p.source]
  }

  /** After one operation of an accepted run, a new run is accepted and has exactly the remaining operations to do. */
  ghost predicate Continues(p: Plan, f: Files) {
    Script(p, f) != [] && !Script(p, f)[0].Refuse? ==>
      var g := Exec(Script(p, f)[0], f);
      Accepts(p, g) && Script(p, g) == Script(p, f)[1..]
  }

  lemma {:induction false} ContinueMkDir(p: Plan, f: Files)
    requires p.Valid() && Accepts(p, f) && !Restored(p, f) && !f.dir
    ensures Continues(p, f)
  {
    var g := Files(true, f.at);
    assert Replacement(p, g) == Replacement(p, f);
    assert FromAudit(p, g) == FromAudit(p, f);
    assert FromArchive(p, g) == FromArchive(p, f);
    ScriptIs(p, f);
    ScriptIs(p, g);
    assert ([MkDir] + FromArchive(p, f))[1..] == FromArchive(p, f);
  }

  lemma {:induction false} ContinueArchive(p: Plan, f: Files)
    requires p.Valid() && Accepts(p, f) && !Restored(p, f) && f.dir && Archive !in f.at
    ensures Continues(p, f)
  {
  }

  lemma {:induction false} ContinueAudit(p: Plan, f: Files)
    requires p.Valid() && Accepts(p, f) && !Restored(p, f) && f.dir && Archive in f.at && Audit !in f.at
    ensures Continues(p, f)
  {
  }

  lemma {:induction false} ContinueJournal(p: Plan, f: Files)
    requires p.Valid() && Accepts(p, f) && !Restored(p, f) && f.dir && Archive in f.at && Audit in f.at &&
              f.Holds(Journal, p.source)
    ensures Continues(p, f)
  {
  }

  lemma {:induction false} ContinueFinish(p: Plan, f: Files)
    requires p.Valid() && Accepts(p, f) && !Restored(p, f) && f.dir && Archive in f.at && Audit in f.at &&
              !f.Holds(Journal, p.source)
    ensures Continues(p, f)
  {
  }

  lemma {:induction false} Continue(p: Plan, f: Files)
    requires p.Valid() && Accepts(p, f) && Script(p, f) != [] && !Script(p, f)[0].Refuse?
    ensures var g := Exec(Script(p, f)[0], f); Accepts(p, g) && Script(p, g) == Script(p, f)[1..]
  {
    assert Continues(p, f) by {
      if !f.dir {
        ContinueMkDir(p, f);
      } else if Archive !in f.at {
        ContinueArchive(p, f);
      } else if Audit !in f.at {
        ContinueAudit(p, f);
      } else if f.Holds(Journal, p.source) {
        ContinueJournal(p, f);
      } else {
        ContinueFinish(p, f);
      }
    }
  }

  /** One operation of a run from a clean state is not a refusal and leads to a clean state. */
  lemma Resume(p: Plan, f: Files)
    requires p.Valid() && Clean(p, f) && Script(p, f) != []
    ensures var op := Script(p, f)[0];
            && !op.Refuse?
            && Clean(p, Exec(op, f))
            && Script(p, Exec(op, f)) == Script(p, f)[1..]
            && (op.Create? ==> op.n !in f.at && (InAuditDir(op.n) ==> f.dir))
  {
    Continue(p, f);
  }

  lemma {:induction false} RunsToTheEnd(p: Plan, f: Files)
    requires p.Valid() && Clean(p, f)
    ensures var g := ExecAll(Script(p, f), f);
            Clean(p, g) && Restored(p, g) && g.Holds(Archive, p.source) && Script(p, g) == []
    decreases |Script(p, f)|
  {
    if Script(p, f) != [] {
      Resume(p, f);
      RunsToTheEnd(p, Exec(Script(p, f)[0], f));
    }
  }

  /** A torn helper file stops every later run: nothing is written, so the file stays torn. */
  lemma TornRefuses(p: Plan, f: Files)
    requires p.Valid() && Torn(p, f)
    ensures Script(p, f) == [Refuse]
  {
    var g, n, c :| Clean(p, g) && TearsNext(p, g, n) && !p.Known(c) && f == g.Put(n, c);
  }

  // ---------- kills ----------

  /**
    What a process killed during `op` can leave visible: the operation undone, done, or, for a file being
    created, a torn file.  A file operation that replaces or makes a directory entry is atomic.
   */
  ghost predicate Image(p: Plan, f: Files, op: Op, d: Files) {
    || d == f
    || d == Exec(op, f)
    || (op.Create? && exists c :: !p.Known(c) && d == f.Put(op.n, c))
  }

  ghost predicate RunImage(p: Plan, f: Files, ops: seq<Op>, d: Files)
    decreases |ops|
  {
    if ops == [] then d == f
    else Image(p, f, ops[0], d) || RunImage(p, Exec(ops[0], f), ops[1..], d)
  }

  /** `d` may be left by an apply that began on `f` and was killed anywhere. */
  ghost predicate KilledApply(p: Plan, f: Files, d: Files) {
    RunImage(p, f, Script(p, f), d)
  }

  /** Files found after any number of killed applies; `images[i]` is what run i found. */
  ghost predicate KilledRuns(p: Plan, images: seq<Files>) {
    && images != []
    && Initial(p, images[0])
    && forall i | 0 < i < |images| :: KilledApply(p, images[i - 1], images[i])
  }

  lemma {:induction false} ImagesAreCleanOrTorn(p: Plan, f: Files, d: Files)
    requires p.Valid() && Clean(p, f) && RunImage(p, f, Script(p, f), d)
    ensures Clean(p, d) || Torn(p, d)
    decreases |Script(p, f)|
  {
    if Script(p, f) != [] {
      var op := Script(p, f)[0];
      Resume(p, f);
      if RunImage(p, Exec(op, f), Script(p, f)[1..], d) {
        ImagesAreCleanOrTorn(p, Exec(op, f), d);
      } else if op.Create? && d != f && d != Exec(op, f) {
        assert TearsNext(p, f, op.n);
      }
    }
  }

  lemma NextImage(p: Plan, f: Files, d: Files)
    requires p.Valid() && (Clean(p, f) || Torn(p, f)) && KilledApply(p, f, d)
    ensures Clean(p, d) || Torn(p, d)
    ensures Torn(p, f) ==> d == f
  {
    if Torn(p, f) {
      TornRefuses(p, f);
      assert Image(p, f, [Refuse][0], d) || RunImage(p, f, [], d);
    } else {
      ImagesAreCleanOrTorn(p, f, d);
    }
  }

  lemma {:induction false} EveryImage(p: Plan, images: seq<Files>)
    requires p.Valid() && KilledRuns(p, images)
    ensures Clean(p, images[|images| - 1]) || Torn(p, images[|images| - 1])
  {
    var last := |images| - 1;
    if last > 0 {
      EveryImage(p, images[..last]);
      NextImage(p, images[last - 1], images[last]);
    }
  }

  /** What the next apply does: complete the recovery for good, or refuse and change nothing. */
  ghost predicate Converges(p: Plan, f: Files) {
    var g := ExecAll(Script(p, f), f);
    Refuse !in Script(p, f) && g.Holds(Journal, p.replacement) && g.Holds(Archive, p.source)
    && g.Holds(Audit, p.complete) && Script(p, g) == []
  }

  lemma {:induction false} CleanNeverRefuses(p: Plan, f: Files)
    requires p.Valid() && Clean(p, f)
    ensures Refuse !in Script(p, f)
    decreases |Script(p, f)|
  {
    var ops := Script(p, f);
    if ops != [] {
      Resume(p, f);
      CleanNeverRefuses(p, Exec(ops[0], f));
      assert ops == [ops[0]] + ops[1..];
    }
  }

  lemma CleanConverges(p: Plan, f: Files)
    requires p.Valid() && Clean(p, f)
    ensures Converges(p, f)
  {
    RunsToTheEnd(p, f);
    CleanNeverRefuses(p, f);
  }

  /**
    Convergence: after any number of killed applies, the next apply refuses exactly when some helper file was
    left torn, and then every later one does; otherwise, uninterrupted, it completes and a later apply has nothing
    to do.
   */
  lemma KillConvergence(p: Plan, images: seq<Files>)
    requires p.Valid() && KilledRuns(p, images)
    ensures var f := images[|images| - 1];
            && (Torn(p, f) <==> Script(p, f) == [Refuse])
            && (!Torn(p, f) ==> Converges(p, f))
  {
    var f := images[|images| - 1];
    EveryImage(p, images);
    if Torn(p, f) {
      TornRefuses(p, f);
    } else {
      CleanConverges(p, f);
    }
  }

  /** A first apply killed while it makes the archive leaves such a file. */
  lemma {:induction false} TornArchiveHappens(p: Plan)
    requires p.Valid()
    ensures var f := Files(true, map[Journal := p.source]);
            var d := f.Put(Archive, []);
            KilledRuns(p, [f, d]) && Torn(p, d) && Script(p, d) == [Refuse]
  {
    var f := Files(true, map[Journal := p.source]);
    var d := f.Put(Archive, []);
    assert Script(p, f)[0] == Create(Archive, p.source);
    assert Clean(p, f) && TearsNext(p, f, Archive) && !p.Known([]);
    TornRefuses(p, d);
    assert Image(p, f, Script(p, f)[0], d);
  }

  /** Applies that are only ever killed between two file operations; `steps[i]` operations ran before kill i. */
  ghost predicate KilledBetween(p: Plan, images: seq<Files>, steps: seq<nat>) {
    && |images| == |steps| + 1
    && Initial(p, images[0])
    && forall i | 0 <= i < |steps| ::
         steps[i] <= |Script(p, images[i])| && images[i + 1] == ExecAll(Script(p, images[i])[..steps[i]], images[i])
  }

  function Sum(s: seq<nat>): nat {
    if s == [] then 0 else Sum(s[..|s| - 1]) + s[|s| - 1]
  }

  lemma {:induction false} ResumeMany(p: Plan, f: Files, k: nat)
    requires p.Valid() && Clean(p, f) && k <= |Script(p, f)|
    ensures var g := ExecAll(Script(p, f)[..k], f); Clean(p, g) && Script(p, g) == Script(p, f)[k..]
    decreases k
  {
    if k > 0 {
      Resume(p, f);
      var op := Script(p, f)[0];
      ResumeMany(p, Exec(op, f), k - 1);
      assert Script(p, f)[..k][1..] == Script(p, f)[1..][..k - 1];
      assert Script(p, f)[1..][k - 1..] == Script(p, f)[k..];
    }
  }

  lemma DropTwice<T>(s: seq<T>, a: nat, b: nat)
    requires a + b <= |s|
    ensures s[a..][b..] == s[a + b..]
  {
  }

  /** A run without its last kill, the files `f` that kill met, its `k` operations and the files `g` it left. */
  lemma LastKill(p: Plan, images: seq<Files>, steps: seq<nat>)
    returns (shorter: seq<Files>, fewer: seq<nat>, f: Files, k: nat, g: Files)
    requires KilledBetween(p, images, steps) && steps != []
    ensures KilledBetween(p, shorter, fewer) && |fewer| == |steps| - 1
    ensures shorter[0] == images[0] && f == shorter[|fewer|] && g == images[|steps|]
    ensures k <= |Script(p, f)| && g == ExecAll(Script(p, f)[..k], f)
    ensures Sum(steps) == Sum(fewer) + k
  {
    var last := |steps| - 1;
    shorter, fewer := images[..last + 1], steps[..last];
    f, k, g := images[last], steps[last], images[last + 1];
  }

  /** The operations left from `f` are those of `all` without the first `done`. */
  ghost predicate LeftAfter(p: Plan, all: seq<Op>, done: nat, f: Files) {
    Clean(p, f) && done <= |all| && Script(p, f) == all[done..]
  }

  lemma {:induction false} OneMoreKill(p: Plan, all: seq<Op>, done: nat, f: Files, k: nat, g: Files, total: nat)
    requires p.Valid() && LeftAfter(p, all, done, f)
    requires k <= |Script(p, f)| && g == ExecAll(Script(p, f)[..k], f) && total == done + k
    ensures LeftAfter(p, all, total, g)
  {
    ResumeMany(p, f, k);
    DropTwice(all, done, k);
  }

  lemma {:induction false} LeftAfterKills(p: Plan, images: seq<Files>, steps: seq<nat>)
    requires p.Valid() && KilledBetween(p, images, steps)
    ensures LeftAfter(p, Script(p, images[0]), Sum(steps), images[|steps|])
    decreases |steps|
  {
    if steps == [] {
      InitialIsLeft(p, images[0]);
    } else {
      var shorter, fewer, f, k, g := LastKill(p, images, steps);
      LeftAfterKills(p, shorter, fewer);
      OneMoreKill(p, Script(p, images[0]), Sum(fewer), f, k, g, Sum(steps));
    }
  }

  lemma InitialIsLeft(p: Plan, f: Files)
    requires p.Valid() && Initial(p, f)
    ensures LeftAfter(p, Script(p, f), 0, f)
  {
  }

  /**
    No work is lost or repeated: however often applies are killed between operations, the operations still to
    do are exactly the first script without the operations already performed.
   */
  lemma {:induction false} NoStepIsRepeated(p: Plan, images: seq<Files>, steps: seq<nat>)
    requires p.Valid() && KilledBetween(p, images, steps)
    ensures Clean(p, images[|steps|])
    ensures Sum(steps) <= |Script(p, images[0])|
    ensures Script(p, images[|steps|]) == Script(p, images[0])[Sum(steps)..]
  {
    LeftAfterKills(p, images, steps);
  }

  // ---------- power loss ----------

  /** The system calls behind an operation. */
  datatype Call =
    | MakeDir
    | Open(n: Name)
    | Write(n: Name, value: Bytes)
    | Fsync(n: Name)
    | Replace(tmp: Name, n: Name)
    | FsyncStateDir
    | FsyncAuditDir
    | Sync

  function FsyncDirOf(n: Name): Call {
    if InAuditDir(n) then FsyncAuditDir else FsyncStateDir
  }

  /** `_exclusive` and `_atomic` as system calls, with the `_sync` that follows a finished audit or journal. */
  function Calls(op: Op): seq<Call> {
    match op
    case MkDir => [MakeDir, FsyncStateDir]
    case Create(n, v) => [Open(n), Write(n, v), Fsync(n), FsyncDirOf(n)] + (if n.Audit? then [Sync] else [])
    case Rename(tmp, n) => [Replace(tmp, n), FsyncDirOf(n), Sync]
    case Refuse => []
  }

  function AllCalls(ops: seq<Op>): seq<Call> {
    if ops == [] then [] else Calls(ops[0]) + AllCalls(ops[1..])
  }

  /** A directory change that no fsync has forced to the disk yet. */
  datatype Entry = Made | Linked(n: Name) | Moved(tmp: Name, n: Name)

  predicate OfAuditDir(e: Entry) {
    match e
    case Made => false
    case Linked(n) => InAuditDir(n)
    case Moved(_, n) => InAuditDir(n)
  }

  /** The visible files, the files certainly on the disk, and what is still only in memory. */
  datatype World = World(vis: Files, disk: Files, pending: seq<Entry>, unsynced: set<Name>)

  function Settled(f: Files): World {
    World(f, f, [], {})
  }

  function Commit(vis: Files, e: Entry, disk: Files): Files {
    match e
    case Made => Files(true, disk.at)
    case Linked(n) => if n in vis.at then disk.Put(n, vis.at[n]) else disk
    case Moved(tmp, n) => Exec(Rename(tmp, n), disk)
  }

  function CommitDir(vis: Files, audit: bool, pending: seq<Entry>, disk: Files): Files {
    if pending == [] then disk
    else CommitDir(vis, audit, pending[1..],
                   if OfAuditDir(pending[0]) == audit then Commit(vis, pending[0], disk) else disk)
  }

  function Remaining(audit: bool, pending: seq<Entry>): seq<Entry> {
    if pending == [] then []
    else (if OfAuditDir(pending[0]) == audit then [] else [pending[0]]) + Remaining(audit, pending[1..])
  }

  function Perform(c: Call, w: World): World {
    match c
    case MakeDir => w.(vis := Files(true, w.vis.at), pending := w.pending + [Made])
    case Open(n) => w.(vis := w.vis.Put(n, []), pending := w.pending + [Linked(n)], unsynced := w.unsynced + {n})
    case Write(n, v) => w.(vis := w.vis.Put(n, v), unsynced := w.unsynced + {n})
    case Fsync(n) => w.(unsynced := w.unsynced - {n})
    case Replace(tmp, n) => w.(vis := Exec(Rename(tmp, n), w.vis), pending := w.pending + [Moved(tmp, n)])
    case FsyncStateDir =>
      w.(disk := CommitDir(w.vis, false, w.pending, w.disk), pending := Remaining(false, w.pending))
    case FsyncAuditDir =>
      w.(disk := CommitDir(w.vis, true, w.pending, w.disk), pending := Remaining(true, w.pending))
    case Sync => Settled(w.vis)
  }

  function PerformAll(calls: seq<Call>, w: World): World {
    if calls == [] then w else PerformAll(calls[1..], Perform(calls[0], w))
  }

  /** Any of the pending directory changes may have reached the disk. */
  ghost predicate Persisted(vis: Files, pending: seq<Entry>, disk: Files, d: Files)
    decreases |pending|
  {
    if pending == [] then d == disk
    else
      || Persisted(vis, pending[1..], disk, d)
      || Persisted(vis, pending[1..], Commit(vis, pending[0], disk), d)
  }

  /** `d` is `base`, except that unsynced contents may be any foreign bytes. */
  ghost predicate Scrambled(p: Plan, unsynced: set<Name>, base: Files, d: Files) {
    && d.dir == base.dir
    && d.at.Keys == base.at.Keys
    && forall n | n in d.at :: d.at[n] == base.at[n] || (n in unsynced && !p.Known(d.at[n]))
  }

  /** What is found after a power loss in `w`. */
  ghost predicate AfterPowerLoss(p: Plan, w: World, d: Files) {
    exists base :: Persisted(w.vis, w.pending, w.disk, base) && Scrambled(p, w.unsynced, base, d)
  }

  /** The power fails before, between or after `calls`. */
  ghost predicate LossDuring(p: Plan, calls: seq<Call>, w: World, d: Files)
    decreases |calls|
  {
    || AfterPowerLoss(p, w, d)
    || (calls != [] && LossDuring(p, calls[1..], Perform(calls[0], w), d))
  }

  /** `d` may be on the disk when the power fails during an apply that began on the settled files `f`. */
  ghost predicate CutApply(p: Plan, f: Files, d: Files) {
    LossDuring(p, AllCalls(Script(p, f)), Settled(f), d)
  }

  /** Disks found by successive applies, each of them cut by a power loss: `disks[i]` is what run i found. */
  ghost predicate PowerCuts(p: Plan, disks: seq<Files>) {
    && disks != []
    && Initial(p, disks[0])
    && forall i | 0 < i < |disks| :: CutApply(p, disks[i - 1], disks[i])
  }

  lemma Cons(p: Plan, c: Call, rest: seq<Call>, w: World, d: Files)
    ensures PerformAll([c] + rest, w) == PerformAll(rest, Perform(c, w))
    ensures LossDuring(p, [c] + rest, w, d) <==> AfterPowerLoss(p, w, d) || LossDuring(p, rest, Perform(c, w), d)
  {
    assert ([c] + rest)[1..] == rest;
  }

  lemma {:induction false} Append(p: Plan, a: seq<Call>, b: seq<Call>, w: World, d: Files)
    ensures PerformAll(a + b, w) == PerformAll(b, PerformAll(a, w))
    ensures LossDuring(p, a + b, w, d) ==> LossDuring(p, a, w, d) || LossDuring(p, b, PerformAll(a, w), d)
  {
    if a == [] {
      assert a + b == b;
    } else {
      Append(p, a[1..], b, Perform(a[0], w), d);
      assert a + b == [a[0]] + (a[1..] + b);
      Cons(p, a[0], a[1..] + b, w, d);
    }
  }

  /** Once its directory is synced, a lone pending change is on the disk and nothing is pending. */
  lemma SyncOne(e: Entry, vis: Files, disk: Files)
    ensures CommitDir(vis, OfAuditDir(e), [e], disk) == Commit(vis, e, disk)
    ensures Remaining(OfAuditDir(e), [e]) == []
  {
    assert [e][1..] == [];
  }

  lemma PersistedOne(e: Entry, vis: Files, disk: Files, d: Files)
    ensures Persisted(vis, [e], disk, d) <==> d == disk || d == Commit(vis, e, disk)
  {
    assert [e][1..] == [];
    assert Persisted(vis, [], disk, d) <==> d == disk;
  }

  lemma ScrambledNothing(p: Plan, base: Files, d: Files)
    requires Scrambled(p, {}, base, d)
    ensures d == base
  {
    assert d.at == base.at;
  }

  lemma SettledLoss(p: Plan, f: Files, d: Files)
    ensures AfterPowerLoss(p, Settled(f), d) ==> d == f
  {
    if AfterPowerLoss(p, Settled(f), d) {
      ScrambledNothing(p, f, d);
    }
  }

  /** With one pending change and synced contents, the disk is as before the change or as after it. */
  lemma OnePendingLoss(p: Plan, w: World, e: Entry, d: Files)
    requires w.pending == [e] && w.unsynced == {} && AfterPowerLoss(p, w, d)
    ensures d == w.disk || d == Commit(w.vis, e, w.disk)
  {
    var base :| Persisted(w.vis, w.pending, w.disk, base) && Scrambled(p, w.unsynced, base, d);
    PersistedOne(e, w.vis, w.disk, base);
    ScrambledNothing(p, base, d);
  }

  lemma ScrambledNew(p: Plan, f: Files, n: Name, x: Bytes, base: Files, d: Files)
    requires n !in f.at && (base == f || base == f.Put(n, x)) && Scrambled(p, {n}, base, d)
    ensures d == f || d == f.Put(n, x) || exists c :: !p.Known(c) && d == f.Put(n, c)
  {
    if base == f {
      assert d.at == f.at;
    } else {
      assert d.at == f.at[n := d.at[n]];
      var c := d.at[n];
      assert d == f.Put(n, c);
    }
  }

  /** While a new file is not synced, it is missing, whole or torn after a power loss. */
  lemma UnsyncedLoss(p: Plan, w: World, f: Files, n: Name, x: Bytes, d: Files)
    requires n !in f.at && w.vis == f.Put(n, x)
    requires w.disk == f && w.pending == [Linked(n)] && w.unsynced == {n} && AfterPowerLoss(p, w, d)
    ensures d == f || d == f.Put(n, x) || exists c :: !p.Known(c) && d == f.Put(n, c)
  {
    var base :| Persisted(w.vis, w.pending, w.disk, base) && Scrambled(p, w.unsynced, base, d);
    PersistedOne(Linked(n), w.vis, f, base);
    ScrambledNew(p, f, n, x, base, d);
  }

  /** Syncing what is settled already changes nothing. */
  lemma TailLoss(p: Plan, g: Files, tail: seq<Call>, d: Files)
    requires tail == [] || tail == [Sync]
    ensures PerformAll(tail, Settled(g)) == Settled(g)
    ensures LossDuring(p, tail, Settled(g), d) ==> d == g
  {
    SettledLoss(p, g, d);
    if tail != [] {
      assert tail == [Sync] + [];
      Cons(p, Sync, [], Settled(g), d);
    }
  }

  function Opened(n: Name, f: Files): World {
    World(f.Put(n, []), f, [Linked(n)], {n})
  }

  function Written(n: Name, v: Bytes, f: Files, unsynced: set<Name>): World {
    World(f.Put(n, v), f, [Linked(n)], unsynced)
  }

  /** The worlds a creation passes through. */
  lemma CreateWorlds(n: Name, v: Bytes, f: Files)
    requires n !in f.at
    ensures Perform(Open(n), Settled(f)) == Opened(n, f)
    ensures Perform(Write(n, v), Opened(n, f)) == Written(n, v, f, {n})
    ensures Perform(Fsync(n), Written(n, v, f, {n})) == Written(n, v, f, {})
    ensures Perform(FsyncDirOf(n), Written(n, v, f, {})) == Settled(f.Put(n, v))
  {
    assert [] + [Linked(n)] == [Linked(n)];
    assert f.Put(n, []).Put(n, v) == f.Put(n, v);
    SyncOne(Linked(n), f.Put(n, v), f);
  }

  /** A power loss in any of these worlds leaves the file missing, torn or whole. */
  lemma CreateWorldsLoss(p: Plan, n: Name, v: Bytes, f: Files, d: Files)
    requires p.Valid() && n !in f.at
    ensures AfterPowerLoss(p, Settled(f), d) || AfterPowerLoss(p, Opened(n, f), d)
            || AfterPowerLoss(p, Written(n, v, f, {n}), d) || AfterPowerLoss(p, Written(n, v, f, {}), d)
            ==> Image(p, f, Create(n, v), d)
  {
    SettledLoss(p, f, d);
    if AfterPowerLoss(p, Opened(n, f), d) {
      UnsyncedLoss(p, Opened(n, f), f, n, [], d);
    }
    if AfterPowerLoss(p, Written(n, v, f, {n}), d) {
      UnsyncedLoss(p, Written(n, v, f, {n}), f, n, v, d);
    }
    if AfterPowerLoss(p, Written(n, v, f, {}), d) {
      OnePendingLoss(p, Written(n, v, f, {}), Linked(n), d);
    }
  }

  lemma CreateLoss(p: Plan, f: Files, n: Name, v: Bytes, d: Files)
    requires p.Valid() && n !in f.at
    ensures PerformAll(Calls(Create(n, v)), Settled(f)) == Settled(f.Put(n, v))
    ensures LossDuring(p, Calls(Create(n, v)), Settled(f), d) ==> Image(p, f, Create(n, v), d)
  {
    var tail := if n.Audit? then [Sync] else [];
    CreateWorlds(n, v, f);
    CreateWorldsLoss(p, n, v, f, d);
    TailLoss(p, f.Put(n, v), tail, d);
    assert Calls(Create(n, v)) == [Open(n)] + ([Write(n, v)] + ([Fsync(n)] + ([FsyncDirOf(n)] + tail)));
    Cons(p, Open(n), [Write(n, v)] + ([Fsync(n)] + ([FsyncDirOf(n)] + tail)), Settled(f), d);
    Cons(p, Write(n, v), [Fsync(n)] + ([FsyncDirOf(n)] + tail), Opened(n, f), d);
    Cons(p, Fsync(n), [FsyncDirOf(n)] + tail, Written(n, v, f, {n}), d);
    Cons(p, FsyncDirOf(n), tail, Written(n, v, f, {}), d);
  }

  lemma EntryLoss(p: Plan, f: Files, op: Op, c: Call, e: Entry, fsync: Call, tail: seq<Call>, d: Files)
    requires Calls(op) == [c, fsync] + tail && (tail == [] || tail == [Sync])
    requires Perform(c, Settled(f)) == World(Exec(op, f), f, [e], {})
    requires Commit(Exec(op, f), e, f) == Exec(op, f)
    requires fsync == if OfAuditDir(e) then FsyncAuditDir else FsyncStateDir
    ensures PerformAll(Calls(op), Settled(f)) == Settled(Exec(op, f))
    ensures LossDuring(p, Calls(op), Settled(f), d) ==> d == f || d == Exec(op, f)
  {
    var g := Exec(op, f);
    var w1 := Perform(c, Settled(f));
    SyncOne(e, g, f);
    assert Perform(fsync, w1) == Settled(g);
    TailLoss(p, g, tail, d);
    assert Calls(op) == [c] + ([fsync] + tail);
    Cons(p, c, [fsync] + tail, Settled(f), d);
    Cons(p, fsync, tail, w1, d);
    SettledLoss(p, f, d);
    if AfterPowerLoss(p, w1, d) { OnePendingLoss(p, w1, e, d); }
  }

  /** An operation may run: a created file is missing, a renamed one exists in its target's directory. */
  predicate Enabled(op: Op, f: Files) {
    match op
    case MkDir => !f.dir
    case Create(n, _) => n !in f.at
    case Rename(tmp, n) => tmp in f.at && tmp != n && InAuditDir(tmp) == InAuditDir(n)
    case Refuse => true
  }

  /** An operation is durable when it returns, and a power loss inside it leaves what a kill inside it leaves. */
  lemma OpLoss(p: Plan, f: Files, op: Op, d: Files)
    requires p.Valid() && Enabled(op, f)
    ensures PerformAll(Calls(op), Settled(f)) == Settled(Exec(op, f))
    ensures LossDuring(p, Calls(op), Settled(f), d) ==> Image(p, f, op, d)
  {
    match op
    case MkDir => EntryLoss(p, f, op, MakeDir, Made, FsyncStateDir, [], d);
    case Create(n, v) => CreateLoss(p, f, n, v, d);
    case Rename(tmp, n) => EntryLoss(p, f, op, Replace(tmp, n), Moved(tmp, n), FsyncDirOf(n), [Sync], d);
    case Refuse => SettledLoss(p, f, d);
  }

  /** A power loss at any point of an apply leaves what a kill at some point of it leaves. */
  lemma {:induction false} PowerLossIsAnImage(p: Plan, f: Files, d: Files)
    requires p.Valid() && Clean(p, f)
    requires LossDuring(p, AllCalls(Script(p, f)), Settled(f), d)
    ensures RunImage(p, f, Script(p, f), d)
    decreases |Script(p, f)|
  {
    var ops := Script(p, f);
    if ops == [] {
      SettledLoss(p, f, d);
    } else {
      Resume(p, f);
      var g := Exec(ops[0], f);
      OpLoss(p, f, ops[0], d);
      Append(p, Calls(ops[0]), AllCalls(ops[1..]), Settled(f), d);
      if LossDuring(p, AllCalls(ops[1..]), Settled(g), d) {
        PowerLossIsAnImage(p, g, d);
      }
    }
  }

  lemma CutIsKill(p: Plan, f: Files, d: Files)
    requires p.Valid() && (Clean(p, f) || Torn(p, f)) && CutApply(p, f, d)
    ensures KilledApply(p, f, d)
  {
    if Torn(p, f) {
      TornRefuses(p, f);
      SettledLoss(p, f, d);
      assert AllCalls([Refuse]) == [];
      assert Image(p, f, [Refuse][0], d);
    } else {
      PowerLossIsAnImage(p, f, d);
    }
  }

  lemma KilledRunsExtend(p: Plan, images: seq<Files>, d: Files)
    requires KilledRuns(p, images) && KilledApply(p, images[|images| - 1], d)
    ensures KilledRuns(p, images + [d])
  {
    var all := images + [d];
    forall i | 0 < i < |all|
      ensures KilledApply(p, all[i - 1], all[i])
    {
      assert all[i - 1] == images[i - 1];
    }
  }

  lemma PowerCutsPrefix(p: Plan, disks: seq<Files>)
    requires PowerCuts(p, disks) && |disks| > 1
    ensures PowerCuts(p, disks[..|disks| - 1]) && CutApply(p, disks[|disks| - 2], disks[|disks| - 1])
  {
  }

  lemma {:induction false} OneMoreCut(p: Plan, before: seq<Files>, d: Files)
    requires p.Valid() && KilledRuns(p, before) && CutApply(p, before[|before| - 1], d)
    ensures KilledRuns(p, before + [d])
  {
    EveryImage(p, before);
    CutIsKill(p, before[|before| - 1], d);
    KilledRunsExtend(p, before, d);
  }

  lemma {:induction false} EveryDisk(p: Plan, disks: seq<Files>)
    requires p.Valid() && PowerCuts(p, disks)
    ensures KilledRuns(p, disks)
  {
    if |disks| > 1 {
      var before, d := disks[..|disks| - 1], disks[|disks| - 1];
      PowerCutsPrefix(p, disks);
      EveryDisk(p, before);
      OneMoreCut(p, before, d);
      assert before + [d] == disks;
    }
  }

  /** The order the protocol keeps on the disk. */
  predicate DiskSafe(p: Plan, d: Files) {
    && (d.Holds(Journal, p.replacement) ==>
          d.Holds(Archive, p.source) && (d.Holds(Audit, p.prepared) || d.Holds(Audit, p.complete)))
    && (d.Holds(Audit, p.complete) ==> d.Holds(Journal, p.replacement))
    && (d.Holds(Journal, p.source) || d.Holds(Archive, p.source))
  }

  lemma {:induction false} CleanIsSafe(p: Plan, f: Files)
    requires p.Valid() && Clean(p, f)
    ensures DiskSafe(p, f)
  {
  }

  /** A torn file is none of the three that count, or it is missing from the files that count before it. */
  lemma {:induction false} TornIsSafe(p: Plan, g: Files, n: Name, c: Bytes)
    requires p.Valid() && Clean(p, g) && TearsNext(p, g, n) && !p.Known(c)
    ensures DiskSafe(p, g.Put(n, c))
  {
    Resume(p, g);
    CleanIsSafe(p, g);
  }

  /** Kill safety: the files visible after any number of applies, each killed anywhere. */
  lemma {:induction false} KillSafety(p: Plan, images: seq<Files>)
    requires p.Valid() && KilledRuns(p, images)
    ensures DiskSafe(p, images[|images| - 1])
  {
    EveryImage(p, images);
    var d := images[|images| - 1];
    if Torn(p, d) {
      var g, n, c :| Clean(p, g) && TearsNext(p, g, n) && !p.Known(c) && d == g.Put(n, c);
      TornIsSafe(p, g, n, c);
    } else {
      CleanIsSafe(p, d);
    }
  }

  /** Power-loss safety: every disk found after any number of applies, each cut anywhere by a power loss. */
  lemma {:induction false} PowerLossSafety(p: Plan, disks: seq<Files>)
    requires p.Valid() && PowerCuts(p, disks)
    ensures DiskSafe(p, disks[|disks| - 1])
  {
    EveryDisk(p, disks);
    KillSafety(p, disks);
  }

  // ---------- kills, call by call ----------

  /** Visible at some moment of `calls`: before or after one of them, or while a write is being made. */
  ghost predicate SeenDuring(p: Plan, calls: seq<Call>, w: World, d: Files)
    decreases |calls|
  {
    || d == w.vis
    || (calls != [] && BeingWritten(p, calls[0], w, d))
    || (calls != [] && SeenDuring(p, calls[1..], Perform(calls[0], w), d))
  }

  ghost predicate BeingWritten(p: Plan, c: Call, w: World, d: Files) {
    c.Write? && exists b :: !p.Known(b) && d == w.vis.Put(c.n, b)
  }

  lemma SeenCons(p: Plan, c: Call, rest: seq<Call>, w: World, d: Files)
    ensures SeenDuring(p, [c] + rest, w, d) <==>
              d == w.vis || BeingWritten(p, c, w, d) || SeenDuring(p, rest, Perform(c, w), d)
  {
    assert ([c] + rest)[1..] == rest;
  }

  lemma {:induction false} SeenAppend(p: Plan, a: seq<Call>, b: seq<Call>, w: World, d: Files)
    ensures SeenDuring(p, a + b, w, d) ==> SeenDuring(p, a, w, d) || SeenDuring(p, b, PerformAll(a, w), d)
    decreases |a|
  {
    if a == [] {
      assert a + b == b;
    } else {
      SeenAppend(p, a[1..], b, Perform(a[0], w), d);
      assert a + b == [a[0]] + (a[1..] + b);
      SeenCons(p, a[0], a[1..] + b, w, d);
    }
  }

  predicate Syncing(c: Call) {
    c.Fsync? || c.FsyncStateDir? || c.FsyncAuditDir? || c.Sync?
  }

  /** Syncing shows nothing new. */
  lemma {:induction false} SeenSyncing(p: Plan, calls: seq<Call>, w: World, d: Files)
    requires forall c | c in calls :: Syncing(c)
    ensures SeenDuring(p, calls, w, d) ==> d == w.vis
    decreases |calls|
  {
    if calls != [] {
      assert Syncing(calls[0]);
      SeenSyncing(p, calls[1..], Perform(calls[0], w), d);
    }
  }

  lemma {:induction false} CreateSeen(p: Plan, f: Files, n: Name, v: Bytes, d: Files)
    requires p.Valid() && n !in f.at && SeenDuring(p, Calls(Create(n, v)), Settled(f), d)
    ensures d == f || d == f.Put(n, v) || exists b :: !p.Known(b) && d == f.Put(n, b)
  {
    var tail := [Fsync(n), FsyncDirOf(n)] + (if n.Audit? then [Sync] else []);
    CreateWorlds(n, v, f);
    assert Calls(Create(n, v)) == [Open(n)] + ([Write(n, v)] + tail);
    SeenCons(p, Open(n), [Write(n, v)] + tail, Settled(f), d);
    SeenCons(p, Write(n, v), tail, Opened(n, f), d);
    SeenSyncing(p, tail, Written(n, v, f, {n}), d);
    if BeingWritten(p, Write(n, v), Opened(n, f), d) {
      var b :| !p.Known(b) && d == f.Put(n, []).Put(n, b);
      PutTwice(f, n, [], b);
    }
  }

  lemma PutTwice(f: Files, n: Name, a: Bytes, b: Bytes)
    ensures f.Put(n, a).Put(n, b) == f.Put(n, b)
  {
  }

  lemma {:induction false} OpSeen(p: Plan, f: Files, op: Op, d: Files)
    requires p.Valid() && Enabled(op, f)
    ensures SeenDuring(p, Calls(op), Settled(f), d) ==> Image(p, f, op, d)
  {
    match op
    case Create(n, v) =>
      if SeenDuring(p, Calls(op), Settled(f), d) {
        CreateSeen(p, f, n, v, d);
      }
    case MkDir =>
      assert Calls(op) == [MakeDir] + [FsyncStateDir];
      SeenCons(p, MakeDir, [FsyncStateDir], Settled(f), d);
      SeenSyncing(p, [FsyncStateDir], Perform(MakeDir, Settled(f)), d);
    case Rename(tmp, n) =>
      assert Calls(op) == [Replace(tmp, n)] + [FsyncDirOf(n), Sync];
      SeenCons(p, Replace(tmp, n), [FsyncDirOf(n), Sync], Settled(f), d);
      SeenSyncing(p, [FsyncDirOf(n), Sync], Perform(Replace(tmp, n), Settled(f)), d);
    case Refuse =>
  }

  /** Whatever is visible at some moment of an apply is what `KilledApply` says a kill may leave. */
  lemma {:induction false} SeenIsKilled(p: Plan, f: Files, d: Files)
    requires p.Valid() && Clean(p, f) && SeenDuring(p, AllCalls(Script(p, f)), Settled(f), d)
    ensures KilledApply(p, f, d)
    decreases |Script(p, f)|
  {
    var ops := Script(p, f);
    if ops != [] {
      Resume(p, f);
      OpSeen(p, f, ops[0], d);
      OpLoss(p, f, ops[0], d);
      SeenAppend(p, Calls(ops[0]), AllCalls(ops[1..]), Settled(f), d);
      if !Image(p, f, ops[0], d) {
        SeenIsKilled(p, Exec(ops[0], f), d);
      }
    }
  }

  // ---------- what single runs report ----------

  datatype Outcome = Refused | DryRunReady(restored: bool) | AlreadyRestored | NowRestored

  function Report(p: Plan, f: Files, apply: bool, verified: bool): Outcome {
    if !verified || !Accepts(p, f) then Refused
    else if !apply then DryRunReady(f.at[Journal] == p.replacement)
    else if Restored(p, f) then AlreadyRestored
    else if Refuse in Script(p, f) then Refused
    else NowRestored
  }

  /** A dry run does not look at the temporaries: it reports ready on a torn file exactly if that is a temporary. */
  lemma DryRunMissesTornTemporaries(p: Plan, g: Files, n: Name, c: Bytes)
    requires p.Valid() && Clean(p, g) && TearsNext(p, g, n) && !p.Known(c)
    ensures Report(p, g.Put(n, c), true, true) == Refused
    ensures Report(p, g.Put(n, c), false, true) != Refused <==> n == JournalTmp || n == AuditTmp
  {
  }

  /** A cut-off temporary of the journal is one that the dry run misses. */
  lemma {:induction false} TornTemporaryHappens(p: Plan)
    requires p.Valid()
    ensures var f := Files(true, map[Journal := p.source, Archive := p.source, Audit := p.prepared, JournalTmp := []]);
            Report(p, f, false, true) == DryRunReady(false) && Report(p, f, true, true) == Refused
  {
  }

  // ---------- scripts taken apart ----------

  /** A run that has made `calls`, sees `now` and has `todo` left will end at `end` having made `all` calls. */
  ghost predicate OnCourse(todo: seq<Op>, now: Files, calls: seq<Call>, end: Files, all: seq<Call>) {
    ExecAll(todo, now) == end && calls + AllCalls(todo) == all
  }

  lemma Advance(todo: seq<Op>, now: Files, calls: seq<Call>, end: Files, all: seq<Call>)
    requires OnCourse(todo, now, calls, end, all) && todo != []
    ensures OnCourse(todo[1..], Exec(todo[0], now), calls + Calls(todo[0]), end, all)
  {
    assert calls + (Calls(todo[0]) + AllCalls(todo[1..])) == calls + Calls(todo[0]) + AllCalls(todo[1..]);
  }

  /** The files once the directory, the archive and the audit exist. */
  function Prepared(p: Plan, f: Files): Files {
    Files(true, f.at[Archive := p.source][Audit := if Audit in f.at then f.at[Audit] else p.prepared])
  }

  function PrepareCalls(p: Plan, f: Files): seq<Call> {
    (if f.dir then [] else [MakeDir, FsyncStateDir])
    + (if Archive in f.at then [] else Calls(Create(Archive, p.source)))
    + (if Audit in f.at then [] else Calls(Create(Audit, p.prepared)))
  }

  lemma FromAuditSplits(p: Plan, f: Files, g: Files)
    ensures AllCalls(FromAudit(p, f))
         == (if Audit in f.at then [] else Calls(Create(Audit, p.prepared))) + AllCalls(Replacement(p, f))
    ensures ExecAll(FromAudit(p, f), g) ==
              ExecAll(Replacement(p, f), if Audit in f.at then g else g.Put(Audit, p.prepared))
  {
    Uncons(Create(Audit, p.prepared), Replacement(p, f), g);
  }

  lemma FromArchiveSplits(p: Plan, f: Files, g: Files)
    ensures AllCalls(FromArchive(p, f))
         == (if Archive in f.at then [] else Calls(Create(Archive, p.source))) + AllCalls(FromAudit(p, f))
    ensures ExecAll(FromArchive(p, f), g) ==
              ExecAll(FromAudit(p, f), if Archive in f.at then g else g.Put(Archive, p.source))
  {
    Uncons(Create(Archive, p.source), FromAudit(p, f), g);
  }

  lemma Uncons(op: Op, rest: seq<Op>, g: Files)
    ensures AllCalls([op] + rest) == Calls(op) + AllCalls(rest)
    ensures ExecAll([op] + rest, g) == ExecAll(rest, Exec(op, g))
  {
    assert ([op] + rest)[1..] == rest;
  }

  lemma FromArchiveIs(p: Plan, f: Files)
    requires Archive in f.at ==> f.at[Archive] == p.source
    ensures ExecAll(FromArchive(p, f), Files(true, f.at)) == ExecAll(Replacement(p, f), Prepared(p, f))
    ensures AllCalls(FromArchive(p, f))
         == (if Archive in f.at then [] else Calls(Create(Archive, p.source)))
            + ((if Audit in f.at then [] else Calls(Create(Audit, p.prepared))) + AllCalls(Replacement(p, f)))
  {
    var g := Files(true, f.at);
    FromArchiveSplits(p, f, g);
    FromAuditSplits(p, f, if Archive in f.at then g else g.Put(Archive, p.source));
    PreparedIs(p, f);
  }

  lemma ScriptIs(p: Plan, f: Files)
    requires Accepts(p, f) && !Restored(p, f)
    ensures Script(p, f) == if f.dir then FromArchive(p, f) else [MkDir] + FromArchive(p, f)
  {
  }

  lemma ScriptSplits(p: Plan, f: Files)
    requires Accepts(p, f) && !Restored(p, f)
    ensures AllCalls(Script(p, f)) == PrepareCalls(p, f) + AllCalls(Replacement(p, f))
    ensures ExecAll(Script(p, f), f) == ExecAll(Replacement(p, f), Prepared(p, f))
  {
    ScriptIs(p, f);
    FromArchiveIs(p, f);
    Uncons(MkDir, FromArchive(p, f), f);
    var a := if Archive in f.at then [] else Calls(Create(Archive, p.source));
    var b := if Audit in f.at then [] else Calls(Create(Audit, p.prepared));
    Regroup(if f.dir then [] else [MakeDir, FsyncStateDir], a, b, AllCalls(Replacement(p, f)));
  }

  lemma Regroup<T>(a: seq<T>, b: seq<T>, c: seq<T>, d: seq<T>)
    ensures a + (b + (c + d)) == a + b + c + d
    ensures a == [] ==> b + (c + d) == a + b + c + d
  {
  }

  lemma PreparedIs(p: Plan, f: Files)
    requires Archive in f.at ==> f.at[Archive] == p.source
    ensures var g := Files(true, f.at);
            var h := if Archive in f.at then g else g.Put(Archive, p.source);
            (if Audit in f.at then h else h.Put(Audit, p.prepared)) == Prepared(p, f)
  {
  }

  lemma PreparedRest(p: Plan, f: Files)
    requires p.Valid() && Accepts(p, f) && !Restored(p, f)
    ensures Refuse in Script(p, f) <==> Refuse in Replacement(p, f)
    ensures Replacement(p, Prepared(p, f)) == Replacement(p, f)
  {
  }

  function AtomicEffect(tmp: Name, n: Name, v: Bytes, f: Files): Files {
    Files(f.dir, f.at[n := v] - {tmp})
  }

  function AtomicCalls(tmp: Name, n: Name, v: Bytes, f: Files): seq<Call> {
    (if tmp in f.at then [] else [Open(tmp), Write(tmp, v), Fsync(tmp), FsyncDirOf(tmp)]) +
        [Replace(tmp, n), FsyncDirOf(n)]
  }

  lemma AdvanceAtomic(tmp: Name, n: Name, v: Bytes, rest: seq<Op>, now: Files, calls: seq<Call>, end: Files,
          all: seq<Call>)
    requires tmp != n && !tmp.Audit? && (tmp in now.at ==> now.at[tmp] == v)
    requires OnCourse(AtomicScript(tmp, n, v, now, rest), now, calls, end, all)
    ensures OnCourse(rest, AtomicEffect(tmp, n, v, now), calls + AtomicCalls(tmp, n, v, now) + [Sync], end, all)
  {
    var todo := AtomicScript(tmp, n, v, now, rest);
    Advance(todo, now, calls, end, all);
    if tmp !in now.at {
      var calls1 := calls + Calls(Create(tmp, v));
      Advance(todo[1..], now.Put(tmp, v), calls1, end, all);
      assert todo[1..][1..] == rest;
      assert Exec(Rename(tmp, n), now.Put(tmp, v)) == AtomicEffect(tmp, n, v, now);
      assert calls + AtomicCalls(tmp, n, v, now) + [Sync] == calls1 + Calls(Rename(tmp, n));
    } else {
      assert todo[1..] == rest;
      assert calls + AtomicCalls(tmp, n, v, now) + [Sync] == calls + Calls(Rename(tmp, n));
    }
  }

  lemma RefuseAtOnce(f: Files, calls: seq<Call>)
    ensures OnCourse([], f, calls, ExecAll([Refuse], f), calls + AllCalls([Refuse]))
  {
    assert [Refuse] == [Refuse] + [];
    Uncons(Refuse, [], f);
  }

  /** A replacement is refused for a foreign temporary of the journal, or else of the audit. */
  lemma RefusalIn(p: Plan, f: Files)
    ensures Refuse in Replacement(p, f) <==>
              || (f.Holds(Journal, p.source) && JournalTmp in f.at && f.at[JournalTmp] != p.replacement)
              || (AuditTmp in f.at && f.at[AuditTmp] != p.complete)
    ensures Replacement(p, f) == [Refuse] <==>
              || (f.Holds(Journal, p.source) && JournalTmp in f.at && f.at[JournalTmp] != p.replacement)
              || (!f.Holds(Journal, p.source) && AuditTmp in f.at && f.at[AuditTmp] != p.complete)
  {
  }

  // ---------- a foreign audit temporary is noticed late ----------

  /** The completion of the audit leaves the journal alone. */
  lemma {:induction false} FinishKeepsJournal(p: Plan, f: Files, g: Files)
    ensures var h := ExecAll(AtomicScript(AuditTmp, Audit, p.complete, f, []), g);
            (Journal in h.at <==> Journal in g.at) && (Journal in g.at ==> h.at[Journal] == g.at[Journal])
  {
    var create, rename := Create(AuditTmp, p.complete), Rename(AuditTmp, Audit);
    Uncons(create, [rename], g);
    Uncons(rename, [], g);
    Uncons(rename, [], Exec(create, g));
    Uncons(Refuse, [], g);
    assert [create] + [rename] == [create, rename] + [];
    assert [rename] + [] == [rename] && [Refuse] + [] == [Refuse];
  }

  /** Replacing a source journal through its temporary, with `rest` still to do. */
  lemma {:induction false} ReplacementOfSource(p: Plan, f: Files, g: Files, rest: seq<Op>)
    requires (JournalTmp in f.at <==> JournalTmp in g.at) &&
              (JournalTmp in f.at ==> f.at[JournalTmp] == g.at[JournalTmp])
    requires JournalTmp in f.at ==> f.at[JournalTmp] == p.replacement
    ensures ExecAll(AtomicScript(JournalTmp, Journal, p.replacement, f, rest), g)
         == ExecAll(rest, AtomicEffect(JournalTmp, Journal, p.replacement, g))
  {
    var create, rename := Create(JournalTmp, p.replacement), Rename(JournalTmp, Journal);
    Uncons(create, [rename] + rest, g);
    Uncons(rename, rest, g);
    Uncons(rename, rest, Exec(create, g));
    assert [create] + ([rename] + rest) == [create, rename] + rest;
    assert JournalTmp !in f.at ==> Exec(rename, Exec(create, g)) == AtomicEffect(JournalTmp, Journal, p.replacement, g);
    assert JournalTmp in f.at ==> Exec(rename, g) == AtomicEffect(JournalTmp, Journal, p.replacement, g);
  }

  /** What an accepted apply leaves in the journal. */
  lemma {:induction false} JournalAfter(p: Plan, f: Files)
    requires p.Valid() && Accepts(p, f) && !Restored(p, f)
    ensures var blocked := JournalTmp in f.at && f.at[JournalTmp] != p.replacement;
            ExecAll(Script(p, f), f).Holds(Journal,
              if f.Holds(Journal, p.source) && !blocked then p.replacement else f.at[Journal])
  {
    var g := Prepared(p, f);
    var finish := AtomicScript(AuditTmp, Audit, p.complete, f, []);
    ScriptSplits(p, f);
    FinishKeepsJournal(p, f, g);
    if f.Holds(Journal, p.source) {
      if JournalTmp in f.at && f.at[JournalTmp] != p.replacement {
        Uncons(Refuse, [], g);
        assert [Refuse] + [] == [Refuse];
      } else {
        ReplacementOfSource(p, f, g, finish);
        FinishKeepsJournal(p, f, AtomicEffect(JournalTmp, Journal, p.replacement, g));
      }
    }
  }

  /**
    An accepted apply refuses after it has changed the journal exactly if the journal is still the source, nothing
    foreign stands in the way of its replacement, and the audit's temporary is foreign.
   */
  lemma {:induction false} RefusesAfterReplacingExactlyWhen(p: Plan, f: Files)
    requires p.Valid() && Accepts(p, f)
    ensures Refuse in Script(p, f) && !ExecAll(Script(p, f), f).Holds(Journal, f.at[Journal]) <==>
              && f.Holds(Journal, p.source)
              && (JournalTmp in f.at ==> f.at[JournalTmp] == p.replacement)
              && AuditTmp in f.at && f.at[AuditTmp] != p.complete
  {
    if !Restored(p, f) {
      PreparedRest(p, f);
      RefusalIn(p, f);
      JournalAfter(p, f);
    }
  }

  lemma {:induction false} SuccessRestores(p: Plan, f: Files)
    requires p.Valid() && Accepts(p, f) && Refuse !in Script(p, f)
    ensures var g := ExecAll(Script(p, f), f); Restored(p, g) && g.Holds(Archive, p.source)
    decreases |Script(p, f)|
  {
    var ops := Script(p, f);
    if ops != [] {
      assert ops == [ops[0]] + ops[1..];
      Continue(p, f);
      SuccessRestores(p, Exec(ops[0], f));
    }
  }

  lemma RefusedAtOnce(p: Plan, f: Files)
    requires !Accepts(p, f)
    ensures ExecAll(Script(p, f), f) == f
  {
    assert [Refuse][1..] == [];
  }

  /**
    On any files at all: an apply that reports success leaves all three files as promised, and one that refuses has
    changed the journal exactly if it was accepted, with a source journal that could be replaced and a foreign
    temporary of the audit; it is then the replacement.
   */
  lemma {:induction false} ApplyOutcome(p: Plan, f: Files)
    requires p.Valid()
    ensures var r, g := Report(p, f, true, true), ExecAll(Script(p, f), f);
            var changed := Journal in f.at && !g.Holds(Journal, f.at[Journal]);
            && (r == NowRestored || r == AlreadyRestored ==> Restored(p, g) && g.Holds(Archive, p.source))
            && (r == Refused && changed <==>
                  && Accepts(p, f) && f.Holds(Journal, p.source)
                  && (JournalTmp in f.at ==> f.at[JournalTmp] == p.replacement)
                  && AuditTmp in f.at && f.at[AuditTmp] != p.complete)
            && (r == Refused && changed ==> g.Holds(Journal, p.replacement))
  {
    if !Accepts(p, f) {
      RefusedAtOnce(p, f);
    } else {
      RefusesAfterReplacingExactlyWhen(p, f);
      if Refuse !in Script(p, f) {
        SuccessRestores(p, f);
      }
      if !Restored(p, f) {
        JournalAfter(p, f);
      }
    }
  }

  /** Such files: an untouched refused journal beside an empty temporary of the audit. */
  lemma {:induction false} EmptyAuditTemporary(p: Plan)
    requires p.Valid()
    ensures var f := Files(true, map[Journal := p.source, AuditTmp := []]);
            && Accepts(p, f)
            && Report(p, f, false, true) == DryRunReady(false)
            && Report(p, f, true, true) == Refused
            && ExecAll(Script(p, f), f).Holds(Journal, p.replacement)
  {
    var f := Files(true, map[Journal := p.source, AuditTmp := []]);
    RefusesAfterReplacingExactlyWhen(p, f);
    JournalAfter(p, f);
  }

  // ---------- the helpers as imperative code ----------

  class RecoveryFiles {
    var dir: bool
    var at: map<Name, Bytes>
    ghost var calls: seq<Call>  // every system call that changed a file so far

    function Now(): Files
      reads this
    {
      Files(dir, at)
    }

    constructor (f: Files)
      ensures Now() == f && calls == []
    {
      dir, at, calls := f.dir, f.at, [];
    }

    /** Create a file that must not exist, write it, and sync it and its directory. */
    method Exclusive(n: Name, value: Bytes) returns (ok: bool)
      modifies this
      ensures ok <==> old(n !in at && (InAuditDir(n) ==> dir))
      ensures !ok ==> Now() == old(Now()) && calls == old(calls)
      ensures ok ==> Now() == old(Now()).Put(n, value)
      ensures ok ==> calls == old(calls) + [Open(n), Write(n, value), Fsync(n), FsyncDirOf(n)]
    {
      ok := n !in at && (InAuditDir(n) ==> dir);
      if ok {
        at := at[n := []];
        calls := calls + [Open(n)];
        at := at[n := value];
        calls := calls + [Write(n, value)];
        calls := calls + [Fsync(n)];
        calls := calls + [FsyncDirOf(n)];
      }
    }

    /** Replace `n` by `value` through its temporary, which an earlier run may have left behind. */
    method Atomic(tmp: Name, n: Name, value: Bytes) returns (ok: bool)
      requires tmp != n && InAuditDir(tmp) == InAuditDir(n) && (InAuditDir(n) ==> dir)
      modifies this
      ensures ok <==> old(tmp in at ==> at[tmp] == value)
      ensures !ok ==> Now() == old(Now()) && calls == old(calls)
      ensures ok ==> Now() == AtomicEffect(tmp, n, value, old(Now()))
      ensures ok ==> calls == old(calls) + AtomicCalls(tmp, n, value, old(Now()))
    {
      if tmp in at {
        ok := at[tmp] == value;
      } else {
        ok := Exclusive(tmp, value);
      }
      if ok {
        at := at[n := at[tmp]] - {tmp};
        calls := calls + [Replace(tmp, n)];
        calls := calls + [FsyncDirOf(n)];
      }
    }

    method SyncAll()
      modifies `calls
      ensures calls == old(calls) + [Sync]
    {
      calls := calls + [Sync];
    }

    /** Make what is missing of the directory and the archive. */
    method PrepareArchive(p: Plan)
      requires Archive in at ==> at[Archive] == p.source
      requires !dir ==> at.Keys <= {Journal, JournalTmp}
      modifies this
      ensures Now() == Files(true, old(at)[Archive := p.source])
      ensures calls == old(calls) + (if old(dir) then [] else [MakeDir, FsyncStateDir])
                       + (if old(Archive in at) then [] else Calls(Create(Archive, p.source)))
    {
      if !dir {
        dir := true;
        calls := calls + [MakeDir, FsyncStateDir];
      }
      if Archive !in at {
        var made := Exclusive(Archive, p.source);
      }
    }

    /** Make what is missing of the directory, the archive and the prepared audit. */
    method Prepare(p: Plan)
      requires Archive in at ==> at[Archive] == p.source
      requires !dir ==> at.Keys <= {Journal, JournalTmp}
      modifies this
      ensures Now() == Prepared(p, old(Now()))
      ensures calls == old(calls) + PrepareCalls(p, old(Now()))
    {
      PrepareArchive(p);
      if Audit !in at {
        var made := Exclusive(Audit, p.prepared);
        SyncAll();
      }
    }

    /** Replace the journal unless that is done; afterwards only the audit is left to complete. */
    method ReplaceJournal(p: Plan, ghost end: Files, ghost all: seq<Call>) returns (ok: bool)
      requires p.Valid() && (Now().Holds(Journal, p.source) || Now().Holds(Journal, p.replacement))
      requires OnCourse(Replacement(p, Now()), Now(), calls, end, all)
      modifies this
      ensures ok <==> Replacement(p, old(Now())) != [Refuse] || old(Now()).Holds(Journal, p.replacement)
      ensures ok ==> OnCourse(AtomicScript(AuditTmp, Audit, p.complete, old(Now()), []), Now(), calls, end, all)
      ensures ok ==> (AuditTmp in at <==> old(AuditTmp in at)) && (AuditTmp in at ==> at[AuditTmp] == old(at)[AuditTmp])
      ensures !ok ==> Now() == old(Now()) && calls == old(calls)
      ensures dir == old(dir)
    {
      ghost var f, calls0 := Now(), calls;
      if at[Journal] == p.source {
        ok := Atomic(JournalTmp, Journal, p.replacement);
        if !ok {
          return;
        }
        AdvanceAtomic(JournalTmp, Journal, p.replacement, AtomicScript(AuditTmp, Audit, p.complete, f, []), f, calls0,
            end, all);
        SyncAll();
        if at[Journal] != p.replacement {
          assert false;  // the readback of the replaced journal
        }
      }
      ok := true;
    }

    /** Replace the journal unless that is done, then complete the audit. */
    method ReplaceAndComplete(p: Plan) returns (outcome: Outcome)
      requires p.Valid() && dir && (Now().Holds(Journal, p.source) || Now().Holds(Journal, p.replacement))
      modifies this
      ensures OnCourse([], Now(), calls, ExecAll(Replacement(p, old(Now())), old(Now())),
                       old(calls) + AllCalls(Replacement(p, old(Now()))))
      ensures outcome == if Refuse in Replacement(p, old(Now())) then Refused else NowRestored
    {
      ghost var f := Now();
      ghost var end, all := ExecAll(Replacement(p, f), f), calls + AllCalls(Replacement(p, f));
      RefuseAtOnce(f, calls);
      RefusalIn(p, f);
      var replaced := ReplaceJournal(p, end, all);
      if !replaced {
        return Refused;
      }
      ghost var before, calls0 := Now(), calls;
      var completed := Atomic(AuditTmp, Audit, p.complete);
      if !completed {
        RefuseAtOnce(before, calls0);
        return Refused;
      }
      AdvanceAtomic(AuditTmp, Audit, p.complete, [], before, calls0, end, all);
      SyncAll();
      return NowRestored;
    }

    /** The checks that precede any write. */
    method Inspect(p: Plan, verified: bool) returns (ok: bool)
      ensures ok <==> Accepts(p, Now()) && verified
    {
      if Journal !in at || (at[Journal] != p.source && at[Journal] != p.replacement) {
        return false;
      }
      var current := at[Journal];
      if !verified {
        return false;
      }
      if Archive in at && at[Archive] != p.source {
        return false;
      }
      if current == p.replacement {
        if Archive !in at || Audit !in at || (at[Audit] != p.prepared && at[Audit] != p.complete) {
          return false;
        }
      } else if Audit in at {
        if Archive !in at || at[Audit] != p.prepared {
          return false;
        }
      }
      return true;
    }

    method Apply(p: Plan) returns (outcome: Outcome)
      requires p.Valid() && Accepts(p, Now()) && !Restored(p, Now())
      requires !dir ==> at.Keys <= {Journal, JournalTmp}
      modifies this
      ensures outcome == if Refuse in Script(p, old(Now())) then Refused else NowRestored
      ensures Now() == ExecAll(Script(p, old(Now())), old(Now()))
      ensures calls == old(calls) + AllCalls(Script(p, old(Now())))
    {
      ghost var f, calls0 := Now(), calls;
      ScriptSplits(p, f);
      PreparedRest(p, f);
      assert calls0 + PrepareCalls(p, f) + AllCalls(Replacement(p, f)) == calls0 + AllCalls(Script(p, f));
      Prepare(p);
      outcome := ReplaceAndComplete(p);
    }

    /** `verified` is the answer of the live-system check, which reads no file of the recovery. */
    method Recover(p: Plan, apply: bool, verified: bool) returns (outcome: Outcome)
      requires p.Valid()
      requires !dir ==> at.Keys <= {Journal, JournalTmp}
      modifies this
      ensures outcome == Report(p, old(Now()), apply, verified)
      ensures apply && verified ==> Now() == ExecAll(Script(p, old(Now())), old(Now()))
      ensures apply && verified ==> calls == old(calls) + AllCalls(Script(p, old(Now())))
      ensures !apply || !verified ==> Now() == old(Now()) && calls == old(calls)
    {
      var ok := Inspect(p, verified);
      if !ok {
        Uncons(Refuse, [], Now());
        assert [Refuse] + [] == [Refuse];
        return Refused;
      }
      if !apply {
        return DryRunReady(at[Journal] == p.replacement);
      }
      if at[Journal] == p.replacement && at[Audit] == p.complete {
        return AlreadyRestored;
      }
      outcome := Apply(p);
    }
  }
}
