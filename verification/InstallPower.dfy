/**
  The installer when the power fails.  Single files and the journal are forced to the disk together with their
  directories; of a new release only the marker is, and neither the release's own name nor the `current` link is.
 */
module InstallPower {
  import opened Common
  import opened Installer
  import opened InstallFiles

  /** What is in place; staging trees and temporaries may be found in any state. */
  datatype InPlace = InPlace(
    releases: map<string, Tree>, files: map<Name, Bytes>, link: Option<string>, journal: Option<Bytes>)

  function PlaceOf(w: World): InPlace {
    InPlace(w.releases, w.files, w.link, w.journal)
  }

  /** A step, or a sync of a file or of a directory. */
  datatype Call =
    | Run(s: Step)
    | SyncTemp
    | SyncPart(part: Part)
    | SyncStaging
    | SyncFileDir(n: Name)
    | SyncJournalDir

  /** The calls behind a step: a single file is written, synced and renamed, and then its directory is synced. */
  function Calls(s: Step): seq<Call> {
    match s
    case PutPart(part, _) => if part == MarkerTmp then [Run(s), SyncPart(part)] else [Run(s)]
    case NameMarker => [Run(s), SyncStaging]
    case WriteTemp(_) => [Run(s), SyncTemp]
    case RenameToFile(n) => [Run(s), SyncFileDir(n)]
    case RenameToJournal => [Run(s), SyncJournalDir]
    case _ => [Run(s)]
  }

  function AllCalls(steps: seq<Step>): seq<Call> {
    if steps == [] then [] else Calls(steps[0]) + AllCalls(steps[1..])
  }

  /** A rename into place, and what of the content it names is forced to the disk. */
  datatype Entry =
    | FileMoved(n: Name, content: Bytes, forced: bool)
    | JournalMoved(content: Bytes, forced: bool)
    | LinkMoved(release: string)
    | ReleaseMoved(release: string, tree: Tree, parts: set<Part>)

  /** Whether the newest temporary is forced, and which parts of the staging tree are, in content and in name. */
  datatype Forced = Forced(temp: bool, content: set<Part>, names: set<Part>)

  datatype Machine = Machine(vis: World, forced: Forced, disk: InPlace, pending: seq<Entry>)

  predicate KeepsParts(parts: set<Part>, tree: Tree, t: Tree) {
    forall part | part in parts && part in tree :: part in t && t[part] == tree[part]
  }

  /** The rename reaches the disk; of what it names, only what is forced is certain. */
  predicate Commits(e: Entry, disk: InPlace, d: InPlace) {
    match e
    case FileMoved(n, content, forced) =>
      n in d.files && (forced ==> d.files[n] == content) && d == disk.(files := disk.files[n := d.files[n]])
    case JournalMoved(content, forced) =>
      d.journal.Some? && (forced ==> d.journal == Some(content)) && d == disk.(journal := d.journal)
    case LinkMoved(release) => d == disk.(link := Some(release))
    case ReleaseMoved(release, tree, parts) =>
      && release in d.releases && KeepsParts(parts, tree, d.releases[release])
      && d == disk.(releases := disk.releases[release := d.releases[release]])
  }

  predicate MayCommit(e: Entry, disk: InPlace, d: InPlace) {
    d == disk || Commits(e, disk, d)
  }

  /** Any of the pending renames may have reached the disk. */
  ghost predicate Persisted(pending: seq<Entry>, disk: InPlace, d: InPlace) {
    if pending == [] then d == disk
    else
      var p, e := pending[..|pending| - 1], pending[|pending| - 1];
      exists mid: InPlace :: Persisted(p, disk, mid) && MayCommit(e, mid, d)
  }

  ghost predicate AfterLoss(m: Machine, d: InPlace) {
    Persisted(m.pending, m.disk, d)
  }

  /** The sync `c` makes the rename certain. */
  predicate ForcedBy(c: Call, e: Entry) {
    match e
    case FileMoved(n, _, forced) => c == SyncFileDir(n) && forced
    case JournalMoved(_, forced) => c == SyncJournalDir && forced
    case _ => false
  }

  function Committed(e: Entry, disk: InPlace): InPlace {
    match e
    case FileMoved(n, content, _) => disk.(files := disk.files[n := content])
    case JournalMoved(content, _) => disk.(journal := Some(content))
    case _ => disk
  }

  function Synced(c: Call, pending: seq<Entry>, disk: InPlace): InPlace {
    if pending == [] then disk
    else
      var before, e := Synced(c, pending[..|pending| - 1], disk), pending[|pending| - 1];
      if ForcedBy(c, e) then Committed(e, before) else before
  }

  function Unforced(c: Call, pending: seq<Entry>): seq<Entry> {
    if pending == [] then []
    else
      var e := pending[|pending| - 1];
      Unforced(c, pending[..|pending| - 1]) + (if ForcedBy(c, e) then [] else [e])
  }

  function Staging(p: Package, pid: nat, u: World): Tree {
    if (p.identity.release, pid) in u.staging then u.staging[(p.identity.release, pid)] else map[]
  }

  /** The rename that a step makes in the directories of what is in place. */
  function Moves(p: Package, pid: nat, s: Step, u: World, f: Forced): seq<Entry> {
    match s
    case PublishRelease => [ReleaseMoved(p.identity.release, Staging(p, pid, u), f.content * f.names)]
    case RenameToFile(n) => [FileMoved(n, Last(u.temps), f.temp)]
    case RenameToJournal => [JournalMoved(Last(u.temps), f.temp)]
    case RenameLink => if pid in u.links then [LinkMoved(u.links[pid])] else []
    case _ => []
  }

  /** What a step writes or names is not forced yet; a renamed file keeps its content. */
  function ForcedAfter(s: Step, f: Forced): Forced {
    match s
    case MakeStaging => f.(content := {}, names := {})
    case PutPart(part, _) => f.(content := f.content - {part}, names := f.names - {part})
    case DropPart(part) => f.(content := f.content - {part}, names := f.names - {part})
    case NameMarker =>
      f.(content := if MarkerTmp in f.content then f.content - {MarkerTmp} + {Marker} else f.content - {Marker},
         names := f.names - {MarkerTmp, Marker})
    case OpenTemp => f.(temp := false)
    case WriteTemp(_) => f.(temp := false)
    case _ => f
  }

  function Perform(p: Package, pid: nat, c: Call, m: Machine): Machine {
    match c
    case Run(s) =>
      Machine(Exec(p, pid, s, m.vis), ForcedAfter(s, m.forced), m.disk, m.pending + Moves(p, pid, s, m.vis, m.forced))
    case SyncTemp => m.(forced := m.forced.(temp := true))
    case SyncPart(part) => m.(forced := m.forced.(content := m.forced.content + {part}))
    case SyncStaging => m.(forced := m.forced.(names := Staging(p, pid, m.vis).Keys))
    case _ => m.(disk := Synced(c, m.pending, m.disk), pending := Unforced(c, m.pending))
  }

  /** The power fails before, between or after `calls`. */
  ghost predicate LossDuring(p: Package, pid: nat, calls: seq<Call>, m: Machine, d: InPlace)
    decreases |calls|
  {
    || AfterLoss(m, d)
    || (calls != [] && LossDuring(p, pid, calls[1..], Perform(p, pid, calls[0], m), d))
  }

  const NOTHING_FORCED := Forced(false, {}, {})

  /** `d` may be on the disk when the power fails during or after a run that began on `w`, all of it on the disk. */
  ghost predicate CutRun(fmt: Format, legacy: Legacy, p: Package, pid: nat, w: World, d: InPlace) {
    if Permits(fmt, legacy, p, w)
    then LossDuring(p, pid, AllCalls(Script(fmt, p, pid, w)), Machine(w, NOTHING_FORCED, PlaceOf(w), []), d)
    else d == PlaceOf(w)
  }

  // ---------- the machine between two steps ----------

  /** A point of a run: what is visible and forced, and which of the two renames that nothing forces were made. */
  datatype At = At(u: World, f: Forced, published: bool, linked: bool)

  function Pending(p: Package, published: bool, linked: bool): seq<Entry> {
    var id := p.identity.release;
    (if published then [ReleaseMoved(id, p.Finished(), {Marker})] else []) + (if linked then [LinkMoved(id)] else [])
  }

  function MachineAt(p: Package, w: World, at: At): Machine {
    Machine(at.u, at.f, InPlace(w.releases, at.u.files, w.link, at.u.journal), Pending(p, at.published, at.linked))
  }

  function Next(p: Package, pid: nat, s: Step, at: At): At {
    var u, f := Exec(p, pid, s, at.u), ForcedAfter(s, at.f);
    var g := match s
      case PutPart(part, _) => if part == MarkerTmp then f.(content := f.content + {MarkerTmp}) else f
      case NameMarker => f.(names := Staging(p, pid, u).Keys)
      case WriteTemp(_) => f.(temp := true)
      case _ => f;
    At(u, g, at.published || s.PublishRelease?, at.linked || s.RenameLink?)
  }

  /** A rename into place names what was written in full and is forced: all of a file, and the marker of a release. */
  predicate Fits(p: Package, pid: nat, s: Step, at: At) {
    && Ready(p, pid, s, at.u)
    && (s.PublishRelease? ==> !at.published && !at.linked && at.f.content * at.f.names == {Marker})
    && (s.RenameLink? ==> !at.linked)
    && (s.RenameToFile? || s.RenameToJournal? ==> at.f.temp)
  }

  predicate Orderly(p: Package, pid: nat, steps: seq<Step>, at: At)
    decreases |steps|
  {
    steps == [] || (Fits(p, pid, steps[0], at) && Orderly(p, pid, steps[1..], Next(p, pid, steps[0], at)))
  }

  function AllNext(p: Package, pid: nat, steps: seq<Step>, at: At): At
    decreases |steps|
  {
    if steps == [] then at else AllNext(p, pid, steps[1..], Next(p, pid, steps[0], at))
  }

  // ---------- what a loss between two steps leaves ----------

  predicate Marked(p: Package, t: Tree) {
    Marker in t && t[Marker] == p.marker
  }

  /** Of a new release nothing, or its marker and anything else; of the link the old one or the new one. */
  predicate LostAt(p: Package, w: World, at: At, d: InPlace) {
    var id := p.identity.release;
    && d.files == at.u.files && d.journal == at.u.journal
    && (d.link == w.link || (at.linked && d.link == Some(id)))
    && (|| d.releases == w.releases
        || (at.published && id in d.releases && Marked(p, d.releases[id])
            && d.releases == w.releases[id := d.releases[id]]))
  }

  lemma {:induction false} PersistedAppend(pending: seq<Entry>, e: Entry, disk: InPlace, d: InPlace)
    ensures Persisted(pending + [e], disk, d) <==>
              exists mid: InPlace :: Persisted(pending, disk, mid) && MayCommit(e, mid, d)
  {
    assert (pending + [e])[..|pending|] == pending;
  }

  lemma {:induction false} PersistedOne(e: Entry, disk: InPlace, d: InPlace)
    ensures Persisted([e], disk, d) <==> MayCommit(e, disk, d)
  {
    assert [] + [e] == [e];
    PersistedAppend([], e, disk, d);
    assert Persisted([], disk, disk);
  }

  lemma ReleaseCommits(p: Package, disk: InPlace, d: InPlace)
    ensures var id := p.identity.release;
            Commits(ReleaseMoved(id, p.Finished(), {Marker}), disk, d) <==>
              && id in d.releases && Marked(p, d.releases[id])
              && d == disk.(releases := disk.releases[id := d.releases[id]])
  {
    assert Marker in p.Finished() && p.Finished()[Marker] == p.marker;
  }

  lemma {:induction false} LossOfBoth(p: Package, w: World, at: At, disk: InPlace, d: InPlace)
    requires at.published && at.linked && disk == InPlace(w.releases, at.u.files, w.link, at.u.journal)
    ensures var id := p.identity.release;
            Persisted([ReleaseMoved(id, p.Finished(), {Marker})] + [LinkMoved(id)], disk, d) <==> LostAt(p, w, at, d)
  {
    var id := p.identity.release;
    var r, l, mid := ReleaseMoved(id, p.Finished(), {Marker}), LinkMoved(id), d.(link := disk.link);
    PersistedAppend([r], l, disk, d);
    ReleaseCommits(p, disk, mid);
    PersistedOne(r, disk, mid);
    if LostAt(p, w, at, d) {
      assert Persisted([r], disk, mid) && MayCommit(l, mid, d);
    }
    if Persisted([r] + [l], disk, d) {
      var m: InPlace :| Persisted([r], disk, m) && MayCommit(l, m, d);
      PersistedOne(r, disk, m);
      ReleaseCommits(p, disk, m);
    }
  }

  lemma {:induction false} LossOfRelease(p: Package, w: World, at: At, disk: InPlace, d: InPlace)
    requires at.published && !at.linked && disk == InPlace(w.releases, at.u.files, w.link, at.u.journal)
    ensures Persisted([ReleaseMoved(p.identity.release, p.Finished(), {Marker})], disk, d) <==> LostAt(p, w, at, d)
  {
    ReleaseCommits(p, disk, d);
    PersistedOne(ReleaseMoved(p.identity.release, p.Finished(), {Marker}), disk, d);
  }

  lemma {:induction false} LossOfLink(p: Package, w: World, at: At, disk: InPlace, d: InPlace)
    requires !at.published && at.linked && disk == InPlace(w.releases, at.u.files, w.link, at.u.journal)
    ensures Persisted([LinkMoved(p.identity.release)], disk, d) <==> LostAt(p, w, at, d)
  {
    PersistedOne(LinkMoved(p.identity.release), disk, d);
  }

  lemma PendingIs(p: Package, published: bool, linked: bool)
    ensures var (r, l) := (ReleaseMoved(p.identity.release, p.Finished(), {Marker}), LinkMoved(p.identity.release));
            Pending(p, published, linked)
            == if published then (if linked then [r] + [l] else [r]) else if linked then [l] else []
  {
  }

  lemma {:induction false} LossBetween(p: Package, w: World, at: At, d: InPlace)
    ensures AfterLoss(MachineAt(p, w, at), d) <==> LostAt(p, w, at, d)
  {
    var disk := InPlace(w.releases, at.u.files, w.link, at.u.journal);
    PendingIs(p, at.published, at.linked);
    if at.published && at.linked {
      LossOfBoth(p, w, at, disk, d);
    } else if at.published {
      LossOfRelease(p, w, at, disk, d);
    } else if at.linked {
      LossOfLink(p, w, at, disk, d);
    }
  }

  // ---------- the losses of one step ----------

  lemma LossCons(p: Package, pid: nat, c: Call, rest: seq<Call>, m: Machine, d: InPlace)
    ensures LossDuring(p, pid, [c] + rest, m, d) <==>
              AfterLoss(m, d) || LossDuring(p, pid, rest, Perform(p, pid, c, m), d)
  {
    assert ([c] + rest)[1..] == rest;
  }

  lemma LossNow(p: Package, pid: nat, calls: seq<Call>, m: Machine, d: InPlace)
    ensures AfterLoss(m, d) ==> LossDuring(p, pid, calls, m, d)
  {
  }

  lemma {:induction false} SyncPasses(c: Call, pending: seq<Entry>, e: Entry, disk: InPlace)
    requires !ForcedBy(c, e) && Synced(c, pending, disk) == disk && Unforced(c, pending) == pending
    ensures Synced(c, pending + [e], disk) == disk && Unforced(c, pending + [e]) == pending + [e]
  {
    assert (pending + [e])[..|pending|] == pending;
  }

  /** No directory sync forces the release's name or the link. */
  lemma {:induction false} NeverForced(p: Package, c: Call, published: bool, linked: bool, disk: InPlace)
    ensures var pending := Pending(p, published, linked);
            Synced(c, pending, disk) == disk && Unforced(c, pending) == pending
  {
    var id := p.identity.release;
    var r, l := ReleaseMoved(id, p.Finished(), {Marker}), LinkMoved(id);
    assert [r] + [] == [r] && [] + [r] == [r];
    SyncPasses(c, [], r, disk);
    SyncPasses(c, [], l, disk);
    SyncPasses(c, [r], l, disk);
  }

  lemma {:induction false} SyncOfLast(c: Call, pending: seq<Entry>, e: Entry, disk: InPlace)
    requires ForcedBy(c, e) && Synced(c, pending, disk) == disk && Unforced(c, pending) == pending
    ensures Synced(c, pending + [e], disk) == Committed(e, disk) && Unforced(c, pending + [e]) == pending
  {
    assert (pending + [e])[..|pending|] == pending && pending + [] == pending;
  }

  /** The machine after a rename of a single file, before its directory is synced. */
  function Moved(p: Package, pid: nat, w: World, s: Step, at: At): Machine {
    Perform(p, pid, Run(s), MachineAt(p, w, at))
  }

  predicate SingleRename(s: Step) {
    s.RenameToFile? || s.RenameToJournal?
  }

  function RenamedEntry(s: Step, u: World): Entry
    requires SingleRename(s)
  {
    if s.RenameToFile? then FileMoved(s.n, Last(u.temps), true) else JournalMoved(Last(u.temps), true)
  }

  lemma {:induction false} RenameCommits(p: Package, pid: nat, w: World, s: Step, at: At, mid: InPlace, d: InPlace)
    requires SingleRename(s)
    ensures LostAt(p, w, at, mid) && MayCommit(RenamedEntry(s, at.u), mid, d) ==>
              LostAt(p, w, at, d) || LostAt(p, w, Next(p, pid, s, at), d)
  {
  }

  /** Before its directory is synced, the old file may be found or the new one. */
  lemma {:induction false} LossOfRename(p: Package, pid: nat, w: World, s: Step, at: At, d: InPlace)
    requires Fits(p, pid, s, at) && SingleRename(s)
    ensures AfterLoss(Moved(p, pid, w, s, at), d) ==> LostAt(p, w, at, d) || LostAt(p, w, Next(p, pid, s, at), d)
  {
    var e, m := RenamedEntry(s, at.u), MachineAt(p, w, at);
    assert Moved(p, pid, w, s, at).pending == m.pending + [e];
    PersistedAppend(m.pending, e, m.disk, d);
    if AfterLoss(Moved(p, pid, w, s, at), d) {
      var mid: InPlace :| Persisted(m.pending, m.disk, mid) && MayCommit(e, mid, d);
      LossBetween(p, w, at, mid);
      RenameCommits(p, pid, w, s, at, mid, d);
    }
  }

  lemma {:induction false} MovedIs(p: Package, pid: nat, w: World, s: Step, at: At)
    requires Fits(p, pid, s, at) && SingleRename(s)
    ensures var (e, m, next) := (RenamedEntry(s, at.u), MachineAt(p, w, at), Next(p, pid, s, at));
            && Moved(p, pid, w, s, at) == Machine(next.u, next.f, m.disk, m.pending + [e])
            && next.published == at.published && next.linked == at.linked
            && Committed(e, m.disk) == InPlace(w.releases, next.u.files, w.link, next.u.journal)
  {
  }

  lemma {:induction false} SyncLast(p: Package, pid: nat, c: Call, m: Machine, pending: seq<Entry>, e: Entry)
    requires c.SyncFileDir? || c.SyncJournalDir?
    requires m.pending == pending + [e] && ForcedBy(c, e)
    requires Synced(c, pending, m.disk) == m.disk && Unforced(c, pending) == pending
    ensures Perform(p, pid, c, m) == Machine(m.vis, m.forced, Committed(e, m.disk), pending)
  {
    SyncOfLast(c, pending, e, m.disk);
  }

  lemma {:induction false} RenameSynced(p: Package, pid: nat, w: World, s: Step, at: At)
    requires Fits(p, pid, s, at) && SingleRename(s)
    ensures Perform(p, pid, Calls(s)[1], Moved(p, pid, w, s, at)) == MachineAt(p, w, Next(p, pid, s, at))
  {
    var pending, disk := Pending(p, at.published, at.linked), MachineAt(p, w, at).disk;
    MovedIs(p, pid, w, s, at);
    NeverForced(p, Calls(s)[1], at.published, at.linked, disk);
    SyncLast(p, pid, Calls(s)[1], Moved(p, pid, w, s, at), pending, RenamedEntry(s, at.u));
  }

  /** Any other step changes no directory that is synced later. */
  lemma {:induction false} OtherStep(p: Package, pid: nat, w: World, s: Step, at: At)
    requires Fits(p, pid, s, at) && !SingleRename(s)
    ensures var m1 := Perform(p, pid, Run(s), MachineAt(p, w, at));
            var m2 := if |Calls(s)| == 1 then m1 else Perform(p, pid, Calls(s)[1], m1);
            && m2 == MachineAt(p, w, Next(p, pid, s, at))
            && m1.pending == m2.pending && m1.disk == m2.disk
  {
    PendingNext(p, at.published, at.linked);
  }

  lemma PendingNext(p: Package, published: bool, linked: bool)
    ensures var id := p.identity.release;
            && Pending(p, published, linked) + [] == Pending(p, published, linked)
            && Pending(p, false, false) + [ReleaseMoved(id, p.Finished(), {Marker})] == Pending(p, true, false)
            && Pending(p, published, false) + [LinkMoved(id)] == Pending(p, published, true)
  {
  }

  lemma {:induction false} StepLoss(p: Package, pid: nat, w: World, s: Step, at: At, rest: seq<Call>, d: InPlace)
    requires Fits(p, pid, s, at)
    ensures LossDuring(p, pid, Calls(s) + rest, MachineAt(p, w, at), d) <==>
              LostAt(p, w, at, d) || LossDuring(p, pid, rest, MachineAt(p, w, Next(p, pid, s, at)), d)
  {
    var m, calls, next := MachineAt(p, w, at), Calls(s), MachineAt(p, w, Next(p, pid, s, at));
    var m1 := Perform(p, pid, Run(s), m);
    LossBetween(p, w, at, d);
    LossBetween(p, w, Next(p, pid, s, at), d);
    LossNow(p, pid, rest, next, d);
    var tail := if |calls| == 1 then rest else [calls[1]] + rest;
    assert calls + rest == [Run(s)] + tail;
    LossCons(p, pid, Run(s), tail, m, d);
    if |calls| == 2 {
      LossCons(p, pid, calls[1], rest, m1, d);
    }
    if SingleRename(s) {
      LossOfRename(p, pid, w, s, at, d);
      RenameSynced(p, pid, w, s, at);
    } else {
      OtherStep(p, pid, w, s, at);
    }
  }

  // ---------- the losses of a run ----------

  /** What a loss leaves of a run that has got to the visible world `u`. */
  predicate Lost(p: Package, w: World, u: World, d: InPlace) {
    var id := p.identity.release;
    && d.files == u.files && d.journal == u.journal
    && (d.link == w.link || d.link == u.link)
    && (|| d.releases == w.releases
        || (id in u.releases && id !in w.releases && id in d.releases && Marked(p, d.releases[id])
            && d.releases == w.releases[id := d.releases[id]]))
  }

  predicate Tracks(p: Package, w: World, at: At) {
    var id := p.identity.release;
    && at.u.releases == (if at.published then w.releases[id := p.Finished()] else w.releases)
    && (at.published ==> id !in w.releases)
    && at.u.link == (if at.linked then Some(id) else w.link)
  }

  lemma {:induction false} TracksNext(p: Package, pid: nat, w: World, s: Step, at: At)
    requires Tracks(p, w, at) && Fits(p, pid, s, at)
    ensures Tracks(p, w, Next(p, pid, s, at))
  {
  }

  lemma {:induction false} LostIs(p: Package, w: World, at: At, d: InPlace)
    requires Tracks(p, w, at)
    ensures LostAt(p, w, at, d) <==> Lost(p, w, at.u, d)
  {
  }

  ghost predicate LostAfter(p: Package, pid: nat, w: World, steps: seq<Step>, u: World, k: nat, d: InPlace) {
    k <= |steps| && Lost(p, w, ExecAll(p, pid, steps[..k], u), d)
  }

  lemma {:induction false} LaterSteps(p: Package, pid: nat, w: World, steps: seq<Step>, u: World, d: InPlace)
    requires steps != []
    ensures (exists k: nat :: LostAfter(p, pid, w, steps, u, k, d)) <==>
              || Lost(p, w, u, d)
              || exists k: nat :: LostAfter(p, pid, w, steps[1..], Exec(p, pid, steps[0], u), k, d)
  {
    var v := Exec(p, pid, steps[0], u);
    forall k: nat | 0 < k <= |steps|
      ensures LostAfter(p, pid, w, steps, u, k, d) <==> LostAfter(p, pid, w, steps[1..], v, k - 1, d)
    {
      assert steps[..k][1..] == steps[1..][..k - 1];
    }
    assert LostAfter(p, pid, w, steps, u, 0, d) <==> Lost(p, w, u, d);
    if exists k: nat :: LostAfter(p, pid, w, steps[1..], v, k, d) {
      var k: nat :| LostAfter(p, pid, w, steps[1..], v, k, d);
      assert LostAfter(p, pid, w, steps, u, k + 1, d);
    }
  }

  /** A loss leaves exactly what it can leave between two steps. */
  lemma {:induction false} LossIsBetweenSteps(p: Package, pid: nat, w: World, steps: seq<Step>, at: At, d: InPlace)
    requires Orderly(p, pid, steps, at) && Tracks(p, w, at)
    ensures LossDuring(p, pid, AllCalls(steps), MachineAt(p, w, at), d) <==>
              exists k: nat :: LostAfter(p, pid, w, steps, at.u, k, d)
    decreases |steps|
  {
    LostIs(p, w, at, d);
    if steps == [] {
      LossBetween(p, w, at, d);
      assert LostAfter(p, pid, w, [], at.u, 0, d) <==> Lost(p, w, at.u, d);
    } else {
      var s, next := steps[0], Next(p, pid, steps[0], at);
      TracksNext(p, pid, w, s, at);
      StepLoss(p, pid, w, s, at, AllCalls(steps[1..]), d);
      LossIsBetweenSteps(p, pid, w, steps[1..], next, d);
      LaterSteps(p, pid, w, steps, at.u, d);
    }
  }

  // ---------- the script is orderly ----------

  lemma {:induction false} OrderlyAppend(p: Package, pid: nat, a: seq<Step>, b: seq<Step>, at: At)
    requires Orderly(p, pid, a, at) && Orderly(p, pid, b, AllNext(p, pid, a, at))
    ensures Orderly(p, pid, a + b, at) && AllNext(p, pid, a + b, at) == AllNext(p, pid, b, AllNext(p, pid, a, at))
    decreases |a|
  {
    if a == [] {
      assert a + b == b;
    } else {
      OrderlyAppend(p, pid, a[1..], b, Next(p, pid, a[0], at));
      assert (a + b)[0] == a[0] && (a + b)[1..] == a[1..] + b;
    }
  }

  lemma OrderlyCons(p: Package, pid: nat, s: Step, rest: seq<Step>, at: At)
    ensures Orderly(p, pid, [s] + rest, at) <==> Fits(p, pid, s, at) && Orderly(p, pid, rest, Next(p, pid, s, at))
    ensures AllNext(p, pid, [s] + rest, at) == AllNext(p, pid, rest, Next(p, pid, s, at))
  {
    assert ([s] + rest)[1..] == rest;
  }

  lemma {:induction false} AllNextExecutes(p: Package, pid: nat, steps: seq<Step>, at: At)
    ensures AllNext(p, pid, steps, at).u == ExecAll(p, pid, steps, at.u)
    decreases |steps|
  {
    if steps != [] {
      AllNextExecutes(p, pid, steps[1..], Next(p, pid, steps[0], at));
    }
  }

  function StagedAt(p: Package, pid: nat, w: World, tree: Tree, content: set<Part>, names: set<Part>): At {
    At(Staged(p, pid, w, tree), Forced(false, content, names), false, false)
  }

  /** A part of the environment: nothing of it is forced. */
  lemma {:induction false} PartIsOrderly(p: Package, pid: nat, w: World, tree: Tree, s: Step)
    requires (s.PutPart? && s.part != MarkerTmp) || s.DropPart?
    ensures var at := StagedAt(p, pid, w, tree, {}, {});
            && Fits(p, pid, s, at)
            && Next(p, pid, s, at)
               == StagedAt(p, pid, w, if s.PutPart? then tree[s.part := s.content] else tree - {s.part}, {}, {})
  {
    assert {} - {s.part} == {};
    if s.PutPart? {
      PartPut(p, pid, w, tree, s.part, s.content);
    } else {
      PartDropped(p, pid, w, tree, s.part);
    }
  }

  /** The marker is forced as a temporary, and once more by its name. */
  lemma {:induction false} MarkerIsForced(p: Package, pid: nat, w: World, tree: Tree)
    requires tree == map[Venv := p.venv, Application := p.application]
    ensures var at := StagedAt(p, pid, w, tree, {}, {});
            var put := PutPart(MarkerTmp, p.marker);
            && Fits(p, pid, put, at) && Fits(p, pid, NameMarker, Next(p, pid, put, at))
            && Next(p, pid, NameMarker, Next(p, pid, put, at))
               == StagedAt(p, pid, w, p.Finished(), {Marker}, p.Finished().Keys)
  {
    var named := tree[MarkerTmp := p.marker];
    PartPut(p, pid, w, tree, MarkerTmp, p.marker);
    MarkerNamed(p, pid, w, named);
    assert named[Marker := named[MarkerTmp]] - {MarkerTmp} == p.Finished();
    assert {} - {MarkerTmp} + {MarkerTmp} == {MarkerTmp} && {MarkerTmp} - {MarkerTmp} + {Marker} == {Marker};
  }

  lemma {:induction false} PublishingIsOrderly(p: Package, pid: nat, w: World)
    requires p.identity.release !in w.releases && (p.identity.release, pid) !in w.staging
    ensures var at := StagedAt(p, pid, w, p.Finished(), {Marker}, p.Finished().Keys);
            var last := Next(p, pid, PublishRelease, at);
            && Fits(p, pid, PublishRelease, at)
            && last.u == w.(releases := w.releases[p.identity.release := p.Finished()])
            && last.published && !last.linked
  {
    Publishing(p, pid, w);
    assert {Marker} * p.Finished().Keys == {Marker};
  }

  lemma {:induction false} MarkingIsOrderly(p: Package, pid: nat, w: World, tree: Tree)
    requires tree == map[Venv := p.venv, Application := p.application, Wheels := p.wheels]
    requires p.identity.release !in w.releases && (p.identity.release, pid) !in w.staging
    ensures var at := StagedAt(p, pid, w, tree, {}, {});
            var last := AllNext(p, pid, MarkerSteps(p), at);
            && Orderly(p, pid, MarkerSteps(p), at)
            && last.u == w.(releases := w.releases[p.identity.release := p.Finished()])
            && last.published && !last.linked
  {
    var at1 := StagedAt(p, pid, w, tree - {Wheels}, {}, {});
    var at2 := Next(p, pid, PutPart(MarkerTmp, p.marker), at1);
    assert tree - {Wheels} == map[Venv := p.venv, Application := p.application];
    PartIsOrderly(p, pid, w, tree, DropPart(Wheels));
    MarkerIsForced(p, pid, w, tree - {Wheels});
    PublishingIsOrderly(p, pid, w);
    var r3 := [PublishRelease] + [];
    var r2 := [NameMarker] + r3;
    var r1 := [PutPart(MarkerTmp, p.marker)] + r2;
    assert MarkerSteps(p) == [DropPart(Wheels)] + r1;
    OrderlyCons(p, pid, DropPart(Wheels), r1, StagedAt(p, pid, w, tree, {}, {}));
    OrderlyCons(p, pid, PutPart(MarkerTmp, p.marker), r2, at1);
    OrderlyCons(p, pid, NameMarker, r3, at2);
    OrderlyCons(p, pid, PublishRelease, [], Next(p, pid, NameMarker, at2));
  }

  lemma {:induction false} EnvironmentIsOrderly(p: Package, pid: nat, w: World)
    ensures var at := At(w, NOTHING_FORCED, false, false);
            var tree: Tree := map[Venv := p.venv, Application := p.application, Wheels := p.wheels];
            && Orderly(p, pid, EnvironmentSteps(p), at)
            && AllNext(p, pid, EnvironmentSteps(p), at) == StagedAt(p, pid, w, tree, {}, {})
  {
    var t1: Tree := map[Wheels := p.wheels];
    var t2 := t1[Venv := p.venv];
    var t3 := t2[Application := p.application];
    var empty: Tree := map[];
    assert t3 == map[Venv := p.venv, Application := p.application, Wheels := p.wheels];
    StagingMade(p, pid, w);
    PartIsOrderly(p, pid, w, empty, PutPart(Wheels, p.wheels));
    PartIsOrderly(p, pid, w, t1, PutPart(Venv, p.venv));
    PartIsOrderly(p, pid, w, t2, PutPart(Application, p.application));
    var r3 := [PutPart(Application, p.application)] + [];
    var r2 := [PutPart(Venv, p.venv)] + r3;
    var r1 := [PutPart(Wheels, p.wheels)] + r2;
    assert EnvironmentSteps(p) == [MakeStaging] + r1;
    OrderlyCons(p, pid, MakeStaging, r1, At(w, NOTHING_FORCED, false, false));
    OrderlyCons(p, pid, PutPart(Wheels, p.wheels), r2, StagedAt(p, pid, w, empty, {}, {}));
    OrderlyCons(p, pid, PutPart(Venv, p.venv), r3, StagedAt(p, pid, w, t1, {}, {}));
    OrderlyCons(p, pid, PutPart(Application, p.application), [], StagedAt(p, pid, w, t2, {}, {}));
  }

  lemma {:induction false} ReleaseIsOrderly(p: Package, pid: nat, w: World)
    requires !StagingTaken(p, pid, w)
    ensures var at := At(w, NOTHING_FORCED, false, false);
            && Orderly(p, pid, ReleaseSteps(p, w), at) && !AllNext(p, pid, ReleaseSteps(p, w), at).linked
            && AllNext(p, pid, ReleaseSteps(p, w), at).u.links == w.links
  {
    if p.identity.release !in w.releases {
      var tree: Tree := map[Venv := p.venv, Application := p.application, Wheels := p.wheels];
      EnvironmentIsOrderly(p, pid, w);
      MarkingIsOrderly(p, pid, w, tree);
      OrderlyAppend(p, pid, EnvironmentSteps(p), MarkerSteps(p), At(w, NOTHING_FORCED, false, false));
    }
  }

  /** A temporary is forced before it is renamed. */
  lemma {:induction false} WritingIsOrderly(p: Package, pid: nat, at: At, content: Bytes, rename: Step)
    requires SingleRename(rename)
    requires rename.RenameToFile? ==> rename.n in p.payloads && content == p.payloads[rename.n]
    requires rename.RenameToJournal? ==> content == p.evidence
    ensures var steps := [OpenTemp, WriteTemp(content), rename];
            var last := AllNext(p, pid, steps, at);
            && Orderly(p, pid, steps, at) && last.published == at.published && last.linked == at.linked
            && last.u.links == at.u.links
  {
    var r2 := [rename] + [];
    var r1 := [WriteTemp(content)] + r2;
    assert [OpenTemp, WriteTemp(content), rename] == [OpenTemp] + r1;
    var at1 := Next(p, pid, OpenTemp, at);
    Writing(p, pid, at.u, content, rename);
    OrderlyCons(p, pid, OpenTemp, r1, at);
    OrderlyCons(p, pid, WriteTemp(content), r2, at1);
    OrderlyCons(p, pid, rename, [], Next(p, pid, WriteTemp(content), at1));
  }

  lemma {:induction false} FilesAreOrderly(fmt: Format, p: Package, pid: nat, w: World, at: At, ns: seq<Name>)
    requires p.Valid(fmt)
    ensures var steps := FileSteps(fmt, p, w, ns);
            var last := AllNext(p, pid, steps, at);
            Orderly(p, pid, steps, at) && last.linked == at.linked && last.u.links == at.u.links
    decreases |ns|
  {
    if ns != [] {
      var a, b := FileStep(fmt, p, w, ns[0]), FileSteps(fmt, p, w, ns[1..]);
      if a != [] {
        WritingIsOrderly(p, pid, at, p.payloads[ns[0]], RenameToFile(ns[0]));
      }
      FilesAreOrderly(fmt, p, pid, w, AllNext(p, pid, a, at), ns[1..]);
      OrderlyAppend(p, pid, a, b, at);
    }
  }

  lemma {:induction false} EndIsOrderly(p: Package, pid: nat, w: World, at: At)
    requires !at.linked && at.u.links == w.links
    ensures Orderly(p, pid, EndSteps(p, pid, w), at)
  {
    if !LinkTaken(p, pid, w) {
      var l, j := LinkSteps(p, w), JournalSteps(p);
      if l != [] {
        var at1 := Next(p, pid, MakeLink, at);
        assert l == [MakeLink] + ([RenameLink] + []);
        OrderlyCons(p, pid, MakeLink, [RenameLink] + [], at);
        OrderlyCons(p, pid, RenameLink, [], at1);
      }
      WritingIsOrderly(p, pid, AllNext(p, pid, l, at), p.evidence, RenameToJournal);
      OrderlyAppend(p, pid, l, j, at);
    }
  }

  lemma {:induction false} ScriptIsOrderly(fmt: Format, p: Package, pid: nat, w: World)
    requires p.Valid(fmt)
    ensures Orderly(p, pid, Script(fmt, p, pid, w), At(w, NOTHING_FORCED, false, false))
  {
    if !StagingTaken(p, pid, w) {
      var r, f, e := ReleaseSteps(p, w), FileSteps(fmt, p, w, MANAGED), EndSteps(p, pid, w);
      var at := At(w, NOTHING_FORCED, false, false);
      var at1 := AllNext(p, pid, r, at);
      ReleaseIsOrderly(p, pid, w);
      FilesAreOrderly(fmt, p, pid, w, at1, MANAGED);
      EndIsOrderly(p, pid, w, AllNext(p, pid, f, at1));
      OrderlyAppend(p, pid, f, e, at1);
      OrderlyAppend(p, pid, r, f + e, at);
    }
  }

  /**
    The disk after a power loss, exactly: what a stop between two steps would show of the files and the journal, the
    old link or that of the stop, and of a release that the stop shows as new either nothing or its marker and anything.
   */
  lemma {:induction false} PowerLossIs(fmt: Format, legacy: Legacy, p: Package, pid: nat, w: World, d: InPlace)
    requires p.Valid(fmt) && Permits(fmt, legacy, p, w)
    ensures CutRun(fmt, legacy, p, pid, w, d) <==>
              exists k: nat :: LostAfter(p, pid, w, Script(fmt, p, pid, w), w, k, d)
  {
    var at := At(w, NOTHING_FORCED, false, false);
    ScriptIsOrderly(fmt, p, pid, w);
    assert Pending(p, false, false) == [];
    assert MachineAt(p, w, at) == Machine(w, NOTHING_FORCED, PlaceOf(w), []);
    LossIsBetweenSteps(p, pid, w, Script(fmt, p, pid, w), at, d);
  }

  // ---------- what is safe, and what is not ----------

  /** What a loss during a permitted run of the package leaves, with the world that a stop would have shown. */
  lemma {:induction false} LossOfRun(fmt: Format, legacy: Legacy, p: Package, pid: nat, w: World, d: InPlace)
    returns (u: World)
    requires p.Valid(fmt) && Permits(fmt, legacy, p, w) && CutRun(fmt, legacy, p, pid, w, d)
    ensures Lost(p, w, u, d) && Content(p, w, u)
    ensures Installer.Between(AbsPackage(fmt, p), Abs(fmt, w), Abs(fmt, u))
  {
    var script := Script(fmt, p, pid, w);
    PowerLossIs(fmt, legacy, p, pid, w, d);
    var k: nat :| LostAfter(p, pid, w, script, w, k, d);
    u := ExecAll(p, pid, script[..k], w);
    ScriptIsProper(fmt, legacy, p, pid, w);
    StepsKeepContent(p, pid, script, w, w, k);
    assert u == After(fmt, p, pid, w, k);
    AfterIsBetween(fmt, legacy, p, pid, w, k);
  }

  lemma {:induction false} AfterIsBetween(fmt: Format, legacy: Legacy, p: Package, pid: nat, w: World, k: nat)
    requires p.Valid(fmt) && Permits(fmt, legacy, p, w)
    ensures Installer.Between(AbsPackage(fmt, p), Abs(fmt, w), Abs(fmt, After(fmt, p, pid, w, k)))
  {
    PermittedIsAccepted(fmt, legacy, p, w);
    AfterIsStopped(fmt, legacy, p, pid, w, k);
    EveryStop(legacy, AbsPackage(fmt, p), [Abs(fmt, w), Abs(fmt, After(fmt, p, pid, w, k))]);
  }

  ghost predicate Cuts(fmt: Format, legacy: Legacy, p: Package, w: World, v: World) {
    exists pid: nat :: CutRun(fmt, legacy, p, pid, w, PlaceOf(v))
  }

  /** Worlds found after successive power losses, each during a run of the package on what the loss before left. */
  ghost predicate CutRuns(fmt: Format, legacy: Legacy, p: Package, ws: seq<World>) {
    ws != [] && forall i | 0 < i < |ws| :: Cuts(fmt, legacy, p, ws[i - 1], ws[i])
  }

  predicate FilesKept(p: Package, w0: World, d: World) {
    && w0.files.Keys <= d.files.Keys
    && (forall n | n in d.files ::
          (n in p.payloads && d.files[n] == p.payloads[n]) || (n in w0.files && d.files[n] == w0.files[n]))
  }

  predicate ReleasesKept(p: Package, w0: World, d: World) {
    var id := p.identity.release;
    && w0.releases.Keys <= d.releases.Keys
    && (forall r | r in d.releases ::
          if r in w0.releases then d.releases[r] == w0.releases[r] else r == id && Marked(p, d.releases[r]))
  }

  predicate AllNew(fmt: Format, p: Package, d: World) {
    Hashed(fmt, d.files) == Hashed(fmt, p.payloads)
  }

  predicate RecordsKept(fmt: Format, p: Package, w0: World, d: World) {
    && (d.link == w0.link || d.link == Some(p.identity.release))
    && (d.journal == w0.journal || d.journal == Some(p.evidence))
    && ((d.link == w0.link && Abs(fmt, d).journal == Abs(fmt, w0).journal) || AllNew(fmt, p, d))
  }

  /**
    Every managed file is the old one or the new one; a release that was not there before has at least its marker; and
    the link and the journal say something new only when all files are new.
   */
  predicate Kept(fmt: Format, p: Package, w0: World, d: World) {
    FilesKept(p, w0, d) && ReleasesKept(p, w0, d) && RecordsKept(fmt, p, w0, d)
  }

  lemma {:induction false} NewFilesStay(fmt: Format, p: Package, w: World, u: World)
    requires p.Valid(fmt) && Installer.Between(AbsPackage(fmt, p), Abs(fmt, w), Abs(fmt, u))
    ensures AllNew(fmt, p, w) ==> AllNew(fmt, p, u)
    ensures (u.link == w.link && Abs(fmt, u).journal == Abs(fmt, w).journal) || AllNew(fmt, p, u)
  {
    if AllNew(fmt, p, w) {
      var t := Abs(fmt, u);
      assert forall n: Name :: n in Hashed(fmt, w.files);
      assert forall n: Name :: n in t.files && t.files[n] == Hashed(fmt, p.payloads)[n];
    }
  }

  lemma {:induction false} LossKeepsFiles(p: Package, w0: World, w: World, u: World, v: World)
    requires Lost(p, w, u, PlaceOf(v)) && Content(p, w, u)
    ensures FilesKept(p, w0, w) ==> FilesKept(p, w0, v)
    ensures ReleasesKept(p, w0, w) ==> ReleasesKept(p, w0, v)
  {
  }

  lemma {:induction false} LossKeepsRecords(fmt: Format, p: Package, w0: World, w: World, u: World, v: World)
    requires Lost(p, w, u, PlaceOf(v)) && Content(p, w, u)
    requires AllNew(fmt, p, w) ==> AllNew(fmt, p, u)
    requires (u.link == w.link && Abs(fmt, u).journal == Abs(fmt, w).journal) || AllNew(fmt, p, u)
    ensures RecordsKept(fmt, p, w0, w) ==> RecordsKept(fmt, p, w0, v)
  {
  }

  lemma {:induction false} CutKeeps(fmt: Format, legacy: Legacy, p: Package, w0: World, w: World, v: World)
    requires p.Valid(fmt) && Cuts(fmt, legacy, p, w, v)
    ensures Kept(fmt, p, w0, w) ==> Kept(fmt, p, w0, v)
  {
    var pid: nat :| CutRun(fmt, legacy, p, pid, w, PlaceOf(v));
    if Permits(fmt, legacy, p, w) {
      var u := LossOfRun(fmt, legacy, p, pid, w, PlaceOf(v));
      NewFilesStay(fmt, p, w, u);
      LossKeepsFiles(p, w0, w, u, v);
      LossKeepsRecords(fmt, p, w0, w, u, v);
    } else {
      SamePlace(fmt, p, w0, w, v);
    }
  }

  lemma {:induction false} SamePlace(fmt: Format, p: Package, w0: World, w: World, v: World)
    ensures PlaceOf(v) == PlaceOf(w) && Kept(fmt, p, w0, w) ==> Kept(fmt, p, w0, v)
  {
  }

  /** However often the power fails during installs of a package, this much is certain of what is found. */
  lemma {:induction false} PowerCutsKeepTheFiles(fmt: Format, legacy: Legacy, p: Package, ws: seq<World>)
    requires p.Valid(fmt) && CutRuns(fmt, legacy, p, ws)
    ensures Kept(fmt, p, ws[0], ws[|ws| - 1])
  {
    if |ws| > 1 {
      PowerCutsKeepTheFiles(fmt, legacy, p, ws[..|ws| - 1]);
      CutKeeps(fmt, legacy, p, ws[0], ws[|ws| - 2], ws[|ws| - 1]);
    }
  }

  /** The link and the journal are those of the new release, of which `t` is found. */
  predicate NewWith(p: Package, d: InPlace, t: Option<Tree>) {
    var id := p.identity.release;
    && d.link == Some(id) && d.journal == Some(p.evidence)
    && (if id in d.releases then t == Some(d.releases[id]) else t == None)
  }

  lemma {:induction false} LossAtTheEnd(fmt: Format, legacy: Legacy, p: Package, pid: nat, w: World, t: Option<Tree>)
    returns (d: InPlace)
    requires p.Valid(fmt) && Permits(fmt, legacy, p, w) && !StagingTaken(p, pid, w) && !LinkTaken(p, pid, w)
    requires p.identity.release !in w.releases && (t.Some? ==> Marked(p, t.value))
    ensures CutRun(fmt, legacy, p, pid, w, d) && NewWith(p, d, t)
  {
    var id, script := p.identity.release, Script(fmt, p, pid, w);
    var u := ExecAll(p, pid, script, w);
    UndisturbedRunFinishes(fmt, legacy, p, pid, w);
    d := InPlace(if t.Some? then w.releases[id := t.value] else w.releases, u.files, u.link, u.journal);
    assert script[..|script|] == script;
    assert LostAfter(p, pid, w, script, w, |script|, d);
    PowerLossIs(fmt, legacy, p, pid, w, d);
  }

  /**
    After a run that finished, the link and the journal can name a release of which a power loss has left nothing, or
    the marker and any remains: exactly if the run had to build that release.
   */
  lemma {:induction false} JournalCanOutliveItsRelease(fmt: Format, legacy: Legacy, p: Package, pid: nat, w: World,
        t: Option<Tree>)
    requires p.Valid(fmt) && Permits(fmt, legacy, p, w) && !StagingTaken(p, pid, w) && !LinkTaken(p, pid, w)
    requires t.Some? ==> Marked(p, t.value) && !(Venv in t.value && fmt.usable(t.value[Venv]))
    ensures (exists d: InPlace :: CutRun(fmt, legacy, p, pid, w, d) && NewWith(p, d, t)) <==>
              p.identity.release !in w.releases
  {
    var id := p.identity.release;
    if id !in w.releases {
      var d := LossAtTheEnd(fmt, legacy, p, pid, w, t);
    } else {
      forall d: InPlace | CutRun(fmt, legacy, p, pid, w, d)
        ensures !NewWith(p, d, t)
      {
        var u := LossOfRun(fmt, legacy, p, pid, w, d);
        assert Acceptable(fmt, p, w.releases[id]);
      }
    }
  }

  /** While the link names a release that is not there, no package is permitted. */
  lemma DanglingLinkBlocksEveryPackage(fmt: Format, legacy: Legacy, q: Package, v: World)
    requires v.link.Some? && v.link.value !in v.releases
    ensures !Permits(fmt, legacy, q, v)
  {
  }

  const NOTHING_INSTALLED := World(map[], map[], map[], [], None, map[], None)

  /** The first install of any package can end in a target that permits no package at all. */
  lemma {:induction false} FirstInstallCanBlockAllOthers(fmt: Format, legacy: Legacy, p: Package, pid: nat)
    returns (d: InPlace)
    requires p.Valid(fmt)
    ensures Permits(fmt, legacy, p, NOTHING_INSTALLED) && CutRun(fmt, legacy, p, pid, NOTHING_INSTALLED, d)
    ensures d.journal == Some(p.evidence) && p.identity.release !in d.releases
    ensures forall q: Package, v: World | PlaceOf(v) == d :: !Permits(fmt, legacy, q, v)
  {
    d := LossAtTheEnd(fmt, legacy, p, pid, NOTHING_INSTALLED, None);
    forall q: Package, v: World | PlaceOf(v) == d
      ensures !Permits(fmt, legacy, q, v)
    {
      DanglingLinkBlocksEveryPackage(fmt, legacy, q, v);
    }
  }

  predicate UsableIfThere(fmt: Format, p: Package, d: InPlace) {
    var id := p.identity.release;
    id in d.releases ==> Venv in d.releases[id] && fmt.usable(d.releases[id][Venv])
  }

  lemma {:induction false} ReleaseAfterCut(fmt: Format, p: Package, w: World, u: World, v: World)
    requires p.Valid(fmt) && Lost(p, w, u, PlaceOf(v)) && Content(p, w, u)
    requires CurrentIdentity(Abs(fmt, w)) != Some(None)
    requires p.identity.release in w.releases ==> Acceptable(fmt, p, w.releases[p.identity.release])
    ensures var id := p.identity.release;
            && (CurrentIdentity(Abs(fmt, v)) != Some(None) <==> (v.link == Some(id) ==> id in v.releases))
            && (v.link == w.link ==> CurrentIdentity(Abs(fmt, v)) == CurrentIdentity(Abs(fmt, w)))
            && ((id in v.releases ==> Acceptable(fmt, p, v.releases[id])) <==> UsableIfThere(fmt, p, PlaceOf(v)))
  {
  }

  /**
    After a power loss the package is permitted again exactly if none or all of the differing files were replaced, what
    is left of its release is usable, and the link does not name a release that is not there.
   */
  lemma {:induction false} PermittedAfterCutExactlyWhen(fmt: Format, legacy: Legacy, p: Package, pid: nat, w: World,
        v: World)
    requires p.Valid(fmt) && Permits(fmt, legacy, p, w) && Settled(legacy, Abs(fmt, w))
    requires CutRun(fmt, legacy, p, pid, w, PlaceOf(v))
    ensures Permits(fmt, legacy, p, v) <==>
              && (Hashed(fmt, v.files) == Hashed(fmt, w.files) || Hashed(fmt, v.files) == Hashed(fmt, p.payloads))
              && UsableIfThere(fmt, p, PlaceOf(v))
              && (v.link == Some(p.identity.release) ==> p.identity.release in v.releases)
  {
    var u := LossOfRun(fmt, legacy, p, pid, w, PlaceOf(v));
    NewFilesStay(fmt, p, w, u);
    ReleaseAfterCut(fmt, p, w, u, v);
    FilesAfterCut(fmt, legacy, p, w, u, v);
  }

  lemma {:induction false} SettledAgain(legacy: Legacy, t0: Target, t: Target)
    requires Settled(legacy, t0) && t.journal == t0.journal && t.current == t0.current
    requires CurrentIdentity(t) == CurrentIdentity(t0)
    requires t0.files != map[] ==> t.files != map[]
    ensures t.files == t0.files && t.files != map[] ==> Authorized(legacy, t)
    ensures t.files != t0.files ==> !Authorized(legacy, t)
  {
  }

  lemma HashedKeys(fmt: Format, files: map<Name, Bytes>)
    ensures Hashed(fmt, files) == map[] <==> files == map[]
  {
    assert forall n | n in files :: n in Hashed(fmt, files);
    assert forall n | n in Hashed(fmt, files) :: n in files;
  }

  lemma {:induction false} FilesAfterCut(fmt: Format, legacy: Legacy, p: Package, w: World, u: World, v: World)
    requires p.Valid(fmt) && Settled(legacy, Abs(fmt, w))
    requires Lost(p, w, u, PlaceOf(v)) && w.files.Keys <= u.files.Keys
    requires (u.link == w.link && Abs(fmt, u).journal == Abs(fmt, w).journal) || AllNew(fmt, p, u)
    requires v.link == w.link ==> CurrentIdentity(Abs(fmt, v)) == CurrentIdentity(Abs(fmt, w))
    ensures var t := Abs(fmt, v);
            (v.files != map[] && t.files != Hashed(fmt, p.payloads) ==> Authorized(legacy, t)) <==>
              Hashed(fmt, v.files) == Hashed(fmt, w.files) || AllNew(fmt, p, v)
  {
    HashedKeys(fmt, v.files);
    HashedKeys(fmt, w.files);
    if !AllNew(fmt, p, v) {
      SettledAgain(legacy, Abs(fmt, w), Abs(fmt, v));
    }
  }
}
