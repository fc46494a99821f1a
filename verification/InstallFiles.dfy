/**
  The installer's effects as file operations: a release is built in a staging tree whose marker is written last, and
  every file is written to a temporary before it is renamed.  A run may stop between any two operations, while
  something is being written, or during the cleanup that follows an error.  Each stop is one of the stops of
  `Installer`.
 */
module InstallFiles {
  import opened Common
  import opened Installer

  /** What a release tree holds. */
  datatype Part = Wheels | Venv | Application | MarkerTmp | Marker

  type Tree = map<Part, Bytes>

  /** How stored bytes are read; a release environment may be usable or not, and a tree a whole release or not. */
  datatype Format = Format(
    hash: Bytes -> Hash,
    marker: Bytes -> Option<Identity>,
    journal: Bytes -> Option<Journal>,
    usable: Bytes -> bool,
    whole: Tree -> bool)

  datatype Package = Package(
    identity: Identity,
    payloads: map<Name, Bytes>,
    wheels: Bytes, venv: Bytes, application: Bytes,
    marker: Bytes, evidence: Bytes)
  {
    function Finished(): Tree {
      map[Venv := venv, Application := application, Marker := marker]
    }

    ghost predicate Valid(fmt: Format) {
      && (forall n: Name :: n in payloads)
      && fmt.marker(marker) == Some(identity)
      && fmt.journal(evidence) == Some(Journal(identity, Some(Hashed(fmt, payloads))))
      && fmt.usable(venv)
      && fmt.whole(Finished())
    }
  }

  function Hashed(fmt: Format, files: map<Name, Bytes>): Hashes {
    map n | n in files :: fmt.hash(files[n])
  }

  /**
    Staging trees are named by release and process; temporaries of single files have names of their own, newest
    last.
   */
  datatype World = World(
    releases: map<string, Tree>,
    staging: map<(string, nat), Tree>,
    files: map<Name, Bytes>,
    temps: seq<Bytes>,
    link: Option<string>,
    links: map<nat, string>,
    journal: Option<Bytes>)

  // ---------- the abstraction ----------

  predicate MarkedAs(fmt: Format, tree: Tree, release: string) {
    Marker in tree && fmt.marker(tree[Marker]).Some? && fmt.marker(tree[Marker]).value.release == release
  }

  function Releases(fmt: Format, releases: map<string, Tree>): map<string, Hash> {
    map r | r in releases && MarkedAs(fmt, releases[r], r) :: fmt.marker(releases[r][Marker]).value.manifest
  }

  function Abs(fmt: Format, w: World): Target {
    Target(Releases(fmt, w.releases), Hashed(fmt, w.files), w.link,
           if w.journal.None? then None else fmt.journal(w.journal.value))
  }

  function AbsPackage(fmt: Format, p: Package): Bundle {
    Bundle(p.identity, Hashed(fmt, p.payloads))
  }

  /** The checks of `_managed_prestate`, on what is stored. */
  predicate Permits(fmt: Format, legacy: Legacy, p: Package, w: World) {
    var t, desired := Abs(fmt, w), Hashed(fmt, p.payloads);
    && (w.files != map[] && t.files != desired ==> Authorized(legacy, t))
    && (p.identity.release in w.releases ==> Acceptable(fmt, p, w.releases[p.identity.release]))
    && CurrentIdentity(t) != Some(None)
  }

  /** An existing release must carry exactly the expected marker and a usable environment. */
  predicate Acceptable(fmt: Format, p: Package, tree: Tree) {
    Marker in tree && tree[Marker] == p.marker && Venv in tree && fmt.usable(tree[Venv])
  }

  // ---------- the steps ----------

  datatype Step =
    | MakeStaging
    | PutPart(part: Part, content: Bytes)
    | DropPart(part: Part)
    | NameMarker
    | PublishRelease
    | OpenTemp
    | WriteTemp(content: Bytes)
    | RenameToFile(n: Name)
    | RenameToJournal
    | MakeLink
    | RenameLink

  function Put(w: World, key: (string, nat), tree: Tree): World {
    w.(staging := w.staging[key := tree])
  }

  function Last(temps: seq<Bytes>): Bytes {
    if temps == [] then [] else temps[|temps| - 1]
  }

  function ButLast(temps: seq<Bytes>): seq<Bytes> {
    if temps == [] then [] else temps[..|temps| - 1]
  }

  function Exec(p: Package, pid: nat, s: Step, w: World): World {
    var id := p.identity.release;
    var key := (id, pid);
    var tree: Tree := if key in w.staging then w.staging[key] else map[];
    match s
    case MakeStaging => Put(w, key, map[])
    case PutPart(part, content) => Put(w, key, tree[part := content])
    case DropPart(part) => Put(w, key, tree - {part})
    case NameMarker => if MarkerTmp in tree then Put(w, key, tree[Marker := tree[MarkerTmp]] - {MarkerTmp}) else w
    case PublishRelease => w.(releases := w.releases[id := tree], staging := w.staging - {key})
    case OpenTemp => w.(temps := w.temps + [[]])
    case WriteTemp(content) => w.(temps := ButLast(w.temps) + [content])
    case RenameToFile(n) => w.(files := w.files[n := Last(w.temps)], temps := ButLast(w.temps))
    case RenameToJournal => w.(journal := Some(Last(w.temps)), temps := ButLast(w.temps))
    case MakeLink => w.(links := w.links[pid := id])
    case RenameLink => if pid in w.links then w.(link := Some(w.links[pid]), links := w.links - {pid}) else w
  }

  function ExecAll(p: Package, pid: nat, steps: seq<Step>, w: World): World
    decreases |steps|
  {
    if steps == [] then w else ExecAll(p, pid, steps[1..], Exec(p, pid, steps[0], w))
  }

  /** `_install_release`, for a release that is not there. */
  function BuildSteps(p: Package): seq<Step> {
    EnvironmentSteps(p) + MarkerSteps(p)
  }

  function EnvironmentSteps(p: Package): seq<Step> {
    [MakeStaging, PutPart(Wheels, p.wheels), PutPart(Venv, p.venv), PutPart(Application, p.application)]
  }

  function MarkerSteps(p: Package): seq<Step> {
    [DropPart(Wheels), PutPart(MarkerTmp, p.marker), NameMarker, PublishRelease]
  }

  function ReleaseSteps(p: Package, w: World): seq<Step> {
    if p.identity.release in w.releases then [] else BuildSteps(p)
  }

  predicate UpToDateFile(fmt: Format, p: Package, w: World, n: Name) {
    n in w.files && n in p.payloads && fmt.hash(w.files[n]) == fmt.hash(p.payloads[n])
  }

  /** `_atomic_write_managed_file` */
  function ReplaceSteps(p: Package, n: Name): seq<Step> {
    if n in p.payloads then [OpenTemp, WriteTemp(p.payloads[n]), RenameToFile(n)] else []
  }

  function FileStep(fmt: Format, p: Package, w: World, n: Name): seq<Step> {
    if UpToDateFile(fmt, p, w, n) then [] else ReplaceSteps(p, n)
  }

  function FileSteps(fmt: Format, p: Package, w: World, ns: seq<Name>): seq<Step> {
    if ns == [] then []
    else FileStep(fmt, p, w, ns[0]) + FileSteps(fmt, p, w, ns[1..])
  }

  function LinkSteps(p: Package, w: World): seq<Step> {
    if w.link == Some(p.identity.release) then [] else [MakeLink, RenameLink]
  }

  function JournalSteps(p: Package): seq<Step> {
    [OpenTemp, WriteTemp(p.evidence), RenameToJournal]
  }

  /** The leftover of an earlier process with the same number stands in the way of the staging tree, or of the link. */
  predicate StagingTaken(p: Package, pid: nat, w: World) {
    p.identity.release !in w.releases && (p.identity.release, pid) in w.staging
  }

  predicate LinkTaken(p: Package, pid: nat, w: World) {
    w.link != Some(p.identity.release) && pid in w.links
  }

  function EndSteps(p: Package, pid: nat, w: World): seq<Step> {
    if LinkTaken(p, pid, w) then [] else LinkSteps(p, w) + JournalSteps(p)
  }

  /** What a permitted run does, if no command fails. */
  function Script(fmt: Format, p: Package, pid: nat, w: World): seq<Step> {
    if StagingTaken(p, pid, w) then []
    else
      ReleaseSteps(p, w) + (FileSteps(fmt, p, w, MANAGED) + EndSteps(p, pid, w))
  }

  /** `d` is `u`, except that its staging tree and the temporaries may be cut off anywhere or cleaned up. */
  predicate Litter(p: Package, pid: nat, u: World, d: World) {
    var key := (p.identity.release, pid);
    && d == u.(staging := d.staging, temps := d.temps)
    && d.staging - {key} == u.staging - {key}
    && (key in d.staging ==> key in u.staging)
  }

  /** After `k` steps of a permitted run. */
  function After(fmt: Format, p: Package, pid: nat, w: World, k: nat): World {
    var script := Script(fmt, p, pid, w);
    if k <= |script| then ExecAll(p, pid, script[..k], w) else w
  }

  /** `d` may be left by a run of process `pid` that stopped anywhere, with or without its cleanup. */
  ghost predicate StoppedBy(fmt: Format, legacy: Legacy, p: Package, pid: nat, w: World, d: World) {
    || d == w
    || (Permits(fmt, legacy, p, w) && exists k: nat :: Litter(p, pid, After(fmt, p, pid, w, k), d))
  }

  ghost predicate Stops(fmt: Format, legacy: Legacy, p: Package, w: World, d: World) {
    exists pid: nat :: StoppedBy(fmt, legacy, p, pid, w, d)
  }

  ghost predicate StoppedRuns(fmt: Format, legacy: Legacy, p: Package, ws: seq<World>) {
    && ws != []
    && forall i | 0 < i < |ws| :: Stops(fmt, legacy, p, ws[i - 1], ws[i])
  }

  // ---------- every step does nothing visible, or exactly one effect ----------

  function EffectOf(s: Step): seq<Effect> {
    match s
    case PublishRelease => [AddRelease]
    case RenameToFile(n) => [ReplaceFile(n)]
    case RenameLink => [SwitchCurrent]
    case RenameToJournal => [WriteJournal]
    case _ => []
  }

  function EffectsOf(steps: seq<Step>): seq<Effect> {
    if steps == [] then [] else EffectOf(steps[0]) + EffectsOf(steps[1..])
  }

  /** What a rename publishes has been written in full. */
  predicate Ready(p: Package, pid: nat, s: Step, u: World) {
    match s
    case PublishRelease =>
      && p.identity.release !in u.releases
      && (p.identity.release, pid) in u.staging && u.staging[(p.identity.release, pid)] == p.Finished()
    case RenameToFile(n) => n in p.payloads && u.temps != [] && Last(u.temps) == p.payloads[n]
    case RenameToJournal => u.temps != [] && Last(u.temps) == p.evidence
    case RenameLink => pid in u.links && u.links[pid] == p.identity.release
    case _ => true
  }

  predicate Proper(p: Package, pid: nat, steps: seq<Step>, u: World)
    decreases |steps|
  {
    steps == [] || (Ready(p, pid, steps[0], u) && Proper(p, pid, steps[1..], Exec(p, pid, steps[0], u)))
  }

  lemma {:induction false} HashedPut(fmt: Format, files: map<Name, Bytes>, n: Name, content: Bytes)
    ensures Hashed(fmt, files[n := content]) == Hashed(fmt, files)[n := fmt.hash(content)]
  {
  }

  lemma {:induction false} ReleasesPut(fmt: Format, p: Package, releases: map<string, Tree>)
    requires p.Valid(fmt)
    ensures Releases(fmt, releases[p.identity.release := p.Finished()])
         == Releases(fmt, releases)[p.identity.release := p.identity.manifest]
  {
  }

  lemma {:induction false} OneStep(fmt: Format, p: Package, pid: nat, s: Step, u: World)
    requires p.Valid(fmt) && Ready(p, pid, s, u)
    ensures Abs(fmt, Exec(p, pid, s, u)) == DoAll(AbsPackage(fmt, p), Abs(fmt, u), EffectOf(s))
  {
    var b, t := AbsPackage(fmt, p), Abs(fmt, u);
    if EffectOf(s) != [] {
      var e := EffectOf(s)[0];
      assert EffectOf(s) == [e] && [e][1..] == [];
      assert DoAll(b, t, [e]) == Do(b, t, e);
    }
    match s
    case PublishRelease => ReleasesPut(fmt, p, u.releases);
    case RenameToFile(n) => HashedPut(fmt, u.files, n, p.payloads[n]);
    case _ =>
  }

  lemma {:induction false} DoAllAppend(b: Bundle, t: Target, es: seq<Effect>, fs: seq<Effect>)
    ensures DoAll(b, t, es + fs) == DoAll(b, DoAll(b, t, es), fs)
    decreases |es|
  {
    if es == [] {
      assert es + fs == fs;
    } else {
      DoAllAppend(b, Do(b, t, es[0]), es[1..], fs);
      assert (es + fs)[0] == es[0] && (es + fs)[1..] == es[1..] + fs;
    }
  }

  lemma {:induction false} Simulates(fmt: Format, p: Package, pid: nat, steps: seq<Step>, u: World, k: nat)
    requires p.Valid(fmt) && Proper(p, pid, steps, u) && k <= |steps|
    ensures Abs(fmt, ExecAll(p, pid, steps[..k], u)) == DoAll(AbsPackage(fmt, p), Abs(fmt, u), EffectsOf(steps[..k]))
    decreases k
  {
    if k > 0 {
      var s, v := steps[0], Exec(p, pid, steps[0], u);
      assert steps[..k][1..] == steps[1..][..k - 1] && steps[..k][0] == s;
      OneStep(fmt, p, pid, s, u);
      Simulates(fmt, p, pid, steps[1..], v, k - 1);
      DoAllAppend(AbsPackage(fmt, p), Abs(fmt, u), EffectOf(s), EffectsOf(steps[1..][..k - 1]));
    }
  }

  lemma {:induction false} EffectsAppend(a: seq<Step>, b: seq<Step>)
    ensures EffectsOf(a + b) == EffectsOf(a) + EffectsOf(b)
  {
    if a == [] {
      assert a + b == b;
    } else {
      EffectsAppend(a[1..], b);
      assert a + b == [a[0]] + (a[1..] + b);
      EffectsCons(a[0], a[1..] + b);
      assert EffectOf(a[0]) + (EffectsOf(a[1..]) + EffectsOf(b)) == EffectOf(a[0]) + EffectsOf(a[1..]) + EffectsOf(b);
    }
  }

  lemma EffectsCons(s: Step, rest: seq<Step>)
    ensures EffectsOf([s] + rest) == EffectOf(s) + EffectsOf(rest)
  {
    assert ([s] + rest)[1..] == rest;
  }

  lemma {:induction false} EffectsPrefix(steps: seq<Step>, k: nat)
    requires k <= |steps|
    ensures EffectsOf(steps[..k]) <= EffectsOf(steps)
  {
    assert steps == steps[..k] + steps[k..];
    EffectsAppend(steps[..k], steps[k..]);
  }

  lemma {:induction false} ProperAppend(p: Package, pid: nat, a: seq<Step>, b: seq<Step>, u: World)
    requires Proper(p, pid, a, u) && Proper(p, pid, b, ExecAll(p, pid, a, u))
    ensures Proper(p, pid, a + b, u)
    ensures ExecAll(p, pid, a + b, u) == ExecAll(p, pid, b, ExecAll(p, pid, a, u))
    decreases |a|
  {
    if a == [] {
      assert a + b == b;
    } else {
      ProperAppend(p, pid, a[1..], b, Exec(p, pid, a[0], u));
      assert (a + b)[0] == a[0] && (a + b)[1..] == a[1..] + b;
    }
  }

  // ---------- the script is proper ----------

  lemma ProperCons(p: Package, pid: nat, s: Step, rest: seq<Step>, u: World)
    ensures Proper(p, pid, [s] + rest, u) <==> Ready(p, pid, s, u) && Proper(p, pid, rest, Exec(p, pid, s, u))
    ensures ExecAll(p, pid, [s] + rest, u) == ExecAll(p, pid, rest, Exec(p, pid, s, u))
    ensures EffectsOf([s] + rest) == EffectOf(s) + EffectsOf(rest)
  {
    assert ([s] + rest)[1..] == rest;
  }

  /** The staging tree alone differs. */
  function Staged(p: Package, pid: nat, w: World, tree: Tree): World {
    Put(w, (p.identity.release, pid), tree)
  }

  lemma {:induction false} StagingMade(p: Package, pid: nat, w: World)
    ensures Exec(p, pid, MakeStaging, w) == Staged(p, pid, w, map[])
  {
  }

  lemma {:induction false} PartPut(p: Package, pid: nat, w: World, t: Tree, part: Part, content: Bytes)
    ensures Exec(p, pid, PutPart(part, content), Staged(p, pid, w, t)) == Staged(p, pid, w, t[part := content])
  {
    var key := (p.identity.release, pid);
    assert w.staging[key := t][key := t[part := content]] == w.staging[key := t[part := content]];
  }

  lemma {:induction false} PartDropped(p: Package, pid: nat, w: World, t: Tree, part: Part)
    ensures Exec(p, pid, DropPart(part), Staged(p, pid, w, t)) == Staged(p, pid, w, t - {part})
  {
    var key := (p.identity.release, pid);
    assert w.staging[key := t][key := t - {part}] == w.staging[key := t - {part}];
  }

  lemma {:induction false} MarkerNamed(p: Package, pid: nat, w: World, t: Tree)
    requires MarkerTmp in t
    ensures Exec(p, pid, NameMarker, Staged(p, pid, w, t)) == Staged(p, pid, w, t[Marker := t[MarkerTmp]] - {MarkerTmp})
  {
    var key, named := (p.identity.release, pid), t[Marker := t[MarkerTmp]] - {MarkerTmp};
    assert w.staging[key := t][key := named] == w.staging[key := named];
  }

  lemma {:induction false} Publishing(p: Package, pid: nat, w: World)
    requires p.identity.release !in w.releases && (p.identity.release, pid) !in w.staging
    ensures var u := Staged(p, pid, w, p.Finished());
            Ready(p, pid, PublishRelease, u)
            && Exec(p, pid, PublishRelease, u) == w.(releases := w.releases[p.identity.release := p.Finished()])
  {
    var key := (p.identity.release, pid);
    assert w.staging[key := p.Finished()] - {key} == w.staging;
  }

  lemma {:induction false} BuildIsProper(p: Package, pid: nat, w: World)
    requires p.identity.release !in w.releases && (p.identity.release, pid) !in w.staging
    ensures Proper(p, pid, BuildSteps(p), w) && EffectsOf(BuildSteps(p)) == [AddRelease]
    ensures ExecAll(p, pid, BuildSteps(p), w) == w.(releases := w.releases[p.identity.release := p.Finished()])
  {
    var t1: Tree := map[Wheels := p.wheels];
    var t2, t3 := t1[Venv := p.venv], t1[Venv := p.venv][Application := p.application];
    var t4: Tree := map[Venv := p.venv, Application := p.application];
    var t5 := t4[MarkerTmp := p.marker];
    var r8: seq<Step> := [PublishRelease] + [];
    var r7 := [NameMarker] + r8;
    var r6 := [PutPart(MarkerTmp, p.marker)] + r7;
    var r5 := [DropPart(Wheels)] + r6;
    var r4 := [PutPart(Application, p.application)] + r5;
    var r3 := [PutPart(Venv, p.venv)] + r4;
    var r2 := [PutPart(Wheels, p.wheels)] + r3;
    assert BuildSteps(p) == [MakeStaging] + r2;
    assert t3 - {Wheels} == t4 && t5[Marker := t5[MarkerTmp]] - {MarkerTmp} == p.Finished();
    StagingMade(p, pid, w);
    PartPut(p, pid, w, map[], Wheels, p.wheels);
    PartPut(p, pid, w, t1, Venv, p.venv);
    PartPut(p, pid, w, t2, Application, p.application);
    PartDropped(p, pid, w, t3, Wheels);
    PartPut(p, pid, w, t4, MarkerTmp, p.marker);
    MarkerNamed(p, pid, w, t5);
    Publishing(p, pid, w);
    ProperCons(p, pid, MakeStaging, r2, w);
    ProperCons(p, pid, PutPart(Wheels, p.wheels), r3, Staged(p, pid, w, map[]));
    ProperCons(p, pid, PutPart(Venv, p.venv), r4, Staged(p, pid, w, t1));
    ProperCons(p, pid, PutPart(Application, p.application), r5, Staged(p, pid, w, t2));
    ProperCons(p, pid, DropPart(Wheels), r6, Staged(p, pid, w, t3));
    ProperCons(p, pid, PutPart(MarkerTmp, p.marker), r7, Staged(p, pid, w, t4));
    ProperCons(p, pid, NameMarker, r8, Staged(p, pid, w, t5));
    ProperCons(p, pid, PublishRelease, [], Staged(p, pid, w, p.Finished()));
  }

  /** A temporary is written in full before it is renamed. */
  lemma {:induction false} Writing(p: Package, pid: nat, u: World, content: Bytes, rename: Step)
    requires rename == RenameToJournal || rename.RenameToFile?
    ensures var v := Exec(p, pid, WriteTemp(content), Exec(p, pid, OpenTemp, u));
            && v == u.(temps := u.temps + [content])
            && Exec(p, pid, rename, v)
               == (if rename.RenameToFile? then u.(files := u.files[rename.n := content])
                   else u.(journal := Some(content)))
  {
    assert ButLast(u.temps + [[]]) == u.temps;
    assert ButLast(u.temps + [content]) == u.temps;
  }

  lemma {:induction false} ReplaceIsProper(p: Package, pid: nat, u: World, n: Name)
    requires n in p.payloads
    ensures Proper(p, pid, ReplaceSteps(p, n), u) && EffectsOf(ReplaceSteps(p, n)) == [ReplaceFile(n)]
    ensures ExecAll(p, pid, ReplaceSteps(p, n), u) == u.(files := u.files[n := p.payloads[n]])
  {
    var v := Exec(p, pid, OpenTemp, u);
    var r2: seq<Step> := [RenameToFile(n)] + [];
    var r1 := [WriteTemp(p.payloads[n])] + r2;
    assert ReplaceSteps(p, n) == [OpenTemp] + r1;
    Writing(p, pid, u, p.payloads[n], RenameToFile(n));
    ProperCons(p, pid, OpenTemp, r1, u);
    ProperCons(p, pid, WriteTemp(p.payloads[n]), r2, v);
    ProperCons(p, pid, RenameToFile(n), [], Exec(p, pid, WriteTemp(p.payloads[n]), v));
  }

  lemma {:induction false} JournalIsProper(p: Package, pid: nat, u: World)
    ensures Proper(p, pid, JournalSteps(p), u) && EffectsOf(JournalSteps(p)) == [WriteJournal]
    ensures ExecAll(p, pid, JournalSteps(p), u) == u.(journal := Some(p.evidence))
  {
    var v := Exec(p, pid, OpenTemp, u);
    var r2: seq<Step> := [RenameToJournal] + [];
    var r1 := [WriteTemp(p.evidence)] + r2;
    assert JournalSteps(p) == [OpenTemp] + r1;
    Writing(p, pid, u, p.evidence, RenameToJournal);
    ProperCons(p, pid, OpenTemp, r1, u);
    ProperCons(p, pid, WriteTemp(p.evidence), r2, v);
    ProperCons(p, pid, RenameToJournal, [], Exec(p, pid, WriteTemp(p.evidence), v));
  }

  lemma {:induction false} LinkIsProper(p: Package, pid: nat, w: World, u: World)
    requires pid !in u.links || w.link == Some(p.identity.release)
    ensures Proper(p, pid, LinkSteps(p, w), u)
    ensures EffectsOf(LinkSteps(p, w)) == if w.link == Some(p.identity.release) then [] else [SwitchCurrent]
    ensures ExecAll(p, pid, LinkSteps(p, w), u)
         == if w.link == Some(p.identity.release) then u else u.(link := Some(p.identity.release))
  {
    if w.link != Some(p.identity.release) {
      assert u.links[pid := p.identity.release] - {pid} == u.links;
      assert LinkSteps(p, w) == [MakeLink] + ([RenameLink] + []);
      ProperCons(p, pid, MakeLink, [RenameLink] + [], u);
      ProperCons(p, pid, RenameLink, [], Exec(p, pid, MakeLink, u));
    }
  }

  /** Files are the only part of the world that the file steps change. */
  lemma {:induction false} FilesAreProper(fmt: Format, p: Package, pid: nat, w: World, u: World, ns: seq<Name>)
    requires p.Valid(fmt)
    ensures Proper(p, pid, FileSteps(fmt, p, w, ns), u)
    ensures var v := ExecAll(p, pid, FileSteps(fmt, p, w, ns), u); v == u.(files := v.files)
    decreases |ns|
  {
    if ns != [] {
      var a := FileStep(fmt, p, w, ns[0]);
      var b := FileSteps(fmt, p, w, ns[1..]);
      ReplaceIsProper(p, pid, u, ns[0]);
      FilesAreProper(fmt, p, pid, w, ExecAll(p, pid, a, u), ns[1..]);
      ProperAppend(p, pid, a, b, u);
    }
  }

  lemma {:induction false} FileEffects(fmt: Format, p: Package, w: World, ns: seq<Name>)
    requires p.Valid(fmt)
    ensures EffectsOf(FileSteps(fmt, p, w, ns)) == Replacements(AbsPackage(fmt, p), Abs(fmt, w), ns)
  {
    if ns != [] {
      var a := FileStep(fmt, p, w, ns[0]);
      FileEffects(fmt, p, w, ns[1..]);
      EffectsAppend(a, FileSteps(fmt, p, w, ns[1..]));
      ReplaceIsProper(p, 0, w, ns[0]);
      assert UpToDateFile(fmt, p, w, ns[0]) <==> UpToDate(AbsPackage(fmt, p), Abs(fmt, w), ns[0]);
    }
  }

  lemma {:induction false} ReleaseIsProper(fmt: Format, legacy: Legacy, p: Package, pid: nat, w: World)
    requires p.Valid(fmt) && Permits(fmt, legacy, p, w) && !StagingTaken(p, pid, w)
    ensures Proper(p, pid, ReleaseSteps(p, w), w)
    ensures var u := ExecAll(p, pid, ReleaseSteps(p, w), w); u == w.(releases := u.releases)
    ensures EffectsOf(ReleaseSteps(p, w)) == if p.identity.release in Abs(fmt, w).releases then [] else [AddRelease]
  {
    if p.identity.release !in w.releases {
      BuildIsProper(p, pid, w);
    }
  }

  lemma {:induction false} EndIsProper(fmt: Format, p: Package, pid: nat, w: World, u: World)
    requires u.links == w.links
    ensures Proper(p, pid, EndSteps(p, pid, w), u)
    ensures EffectsOf(EndSteps(p, pid, w)) <= Ending(AbsPackage(fmt, p), Abs(fmt, w))
    ensures !LinkTaken(p, pid, w) ==> EffectsOf(EndSteps(p, pid, w)) == Ending(AbsPackage(fmt, p), Abs(fmt, w))
  {
    if !LinkTaken(p, pid, w) {
      LinkIsProper(p, pid, w, u);
      JournalIsProper(p, pid, ExecAll(p, pid, LinkSteps(p, w), u));
      ProperAppend(p, pid, LinkSteps(p, w), JournalSteps(p), u);
      EffectsAppend(LinkSteps(p, w), JournalSteps(p));
      assert [] + [WriteJournal] == [WriteJournal];
    }
  }

  /** A permitted run does its effects in order, all of them unless a leftover stands in its way. */
  lemma {:induction false} ScriptEffects(fmt: Format, legacy: Legacy, p: Package, pid: nat, w: World)
    requires p.Valid(fmt) && Permits(fmt, legacy, p, w)
    ensures var all := Effects(AbsPackage(fmt, p), Abs(fmt, w));
            && EffectsOf(Script(fmt, p, pid, w)) <= all
            && (!StagingTaken(p, pid, w) && !LinkTaken(p, pid, w) ==> EffectsOf(Script(fmt, p, pid, w)) == all)
  {
    if !StagingTaken(p, pid, w) {
      var b, t := AbsPackage(fmt, p), Abs(fmt, w);
      var r, f, e := ReleaseSteps(p, w), FileSteps(fmt, p, w, MANAGED), EndSteps(p, pid, w);
      ReleaseIsProper(fmt, legacy, p, pid, w);
      FileEffects(fmt, p, w, MANAGED);
      EndIsProper(fmt, p, pid, w, w);
      EffectsAppend(r, f + e);
      EffectsAppend(f, e);
      assert [] + (Replacements(b, t, MANAGED) + Ending(b, t)) == Replacements(b, t, MANAGED) + Ending(b, t);
    }
  }

  lemma {:induction false} ScriptIsProper(fmt: Format, legacy: Legacy, p: Package, pid: nat, w: World)
    requires p.Valid(fmt) && Permits(fmt, legacy, p, w)
    ensures Proper(p, pid, Script(fmt, p, pid, w), w)
  {
    if !StagingTaken(p, pid, w) {
      var r, f, e := ReleaseSteps(p, w), FileSteps(fmt, p, w, MANAGED), EndSteps(p, pid, w);
      var u := ExecAll(p, pid, r, w);
      ReleaseIsProper(fmt, legacy, p, pid, w);
      FilesAreProper(fmt, p, pid, w, u, MANAGED);
      EndIsProper(fmt, p, pid, w, ExecAll(p, pid, f, u));
      ProperAppend(p, pid, f, e, u);
      ProperAppend(p, pid, r, f + e, w);
    }
  }

  // ---------- stops of the files are stops of the effects ----------

  lemma {:induction false} PrefixOf(a: seq<Effect>, b: seq<Effect>)
    requires a <= b
    ensures |a| <= |b| && a == b[..|a|]
  {
  }

  lemma {:induction false} AfterIsStopped(fmt: Format, legacy: Legacy, p: Package, pid: nat, w: World, k: nat)
    requires p.Valid(fmt) && Permits(fmt, legacy, p, w) && Accepts(legacy, AbsPackage(fmt, p), Abs(fmt, w))
    ensures Stopped(legacy, AbsPackage(fmt, p), Abs(fmt, w), Abs(fmt, After(fmt, p, pid, w, k)))
  {
    var b, t, script := AbsPackage(fmt, p), Abs(fmt, w), Script(fmt, p, pid, w);
    if k <= |script| {
      ScriptIsProper(fmt, legacy, p, pid, w);
      ScriptEffects(fmt, legacy, p, pid, w);
      Simulates(fmt, p, pid, script, w, k);
      EffectsPrefix(script, k);
      var done := EffectsOf(script[..k]);
      assert done <= Effects(b, t);
      PrefixOf(done, Effects(b, t));
      assert Abs(fmt, After(fmt, p, pid, w, k)) == DoAll(b, t, Effects(b, t)[..|done|]);
    } else {
      assert t == DoAll(b, t, Effects(b, t)[..0]);
    }
  }

  lemma {:induction false} PermittedIsAccepted(fmt: Format, legacy: Legacy, p: Package, w: World)
    requires p.Valid(fmt) && Permits(fmt, legacy, p, w)
    ensures Accepts(legacy, AbsPackage(fmt, p), Abs(fmt, w))
  {
    assert w.files == map[] ==> Hashed(fmt, w.files) == map[];
    assert forall n | n in w.files :: n in Hashed(fmt, w.files);
  }

  lemma {:induction false} LitterIsInvisible(fmt: Format, p: Package, pid: nat, u: World, d: World)
    requires Litter(p, pid, u, d)
    ensures Abs(fmt, d) == Abs(fmt, u)
  {
  }

  /** What a run leaves wherever it stops, seen through the abstraction, is what `Installer` says an install leaves. */
  lemma {:induction false} StopsAreStopped(fmt: Format, legacy: Legacy, p: Package, w: World, d: World)
    requires p.Valid(fmt) && Stops(fmt, legacy, p, w, d)
    ensures Stopped(legacy, AbsPackage(fmt, p), Abs(fmt, w), Abs(fmt, d))
  {
    var b, t := AbsPackage(fmt, p), Abs(fmt, w);
    var pid: nat :| StoppedBy(fmt, legacy, p, pid, w, d);
    if d == w {
      assert t == DoAll(b, t, Effects(b, t)[..0]);
    } else {
      var k: nat :| Litter(p, pid, After(fmt, p, pid, w, k), d);
      PermittedIsAccepted(fmt, legacy, p, w);
      AfterIsStopped(fmt, legacy, p, pid, w, k);
      LitterIsInvisible(fmt, p, pid, After(fmt, p, pid, w, k), d);
    }
  }

  function AbsAll(fmt: Format, ws: seq<World>): (ts: seq<Target>)
    ensures |ts| == |ws| && forall i | 0 <= i < |ws| :: ts[i] == Abs(fmt, ws[i])
  {
    if ws == [] then [] else AbsAll(fmt, ws[..|ws| - 1]) + [Abs(fmt, ws[|ws| - 1])]
  }

  lemma {:induction false} RunsAreStopped(fmt: Format, legacy: Legacy, p: Package, ws: seq<World>)
    requires p.Valid(fmt) && StoppedRuns(fmt, legacy, p, ws)
    ensures StoppedInstalls(legacy, AbsPackage(fmt, p), AbsAll(fmt, ws))
  {
    var ts := AbsAll(fmt, ws);
    forall i | 0 < i < |ts|
      ensures Stopped(legacy, AbsPackage(fmt, p), ts[i - 1], ts[i])
    {
      StopsAreStopped(fmt, legacy, p, ws[i - 1], ws[i]);
    }
  }

  // ---------- nothing partial is ever in place ----------

  /** Since `w0`, every file and release was kept or replaced as a whole. */
  ghost predicate Content(p: Package, w0: World, d: World) {
    && w0.files.Keys <= d.files.Keys
    && (forall n | n in d.files ::
          (n in p.payloads && d.files[n] == p.payloads[n]) || (n in w0.files && d.files[n] == w0.files[n]))
    && w0.releases.Keys <= d.releases.Keys
    && (forall r | r in d.releases ::
          if r in w0.releases then d.releases[r] == w0.releases[r]
          else r == p.identity.release && d.releases[r] == p.Finished())
    && (d.link == w0.link || d.link == Some(p.identity.release))
    && (d.journal == w0.journal || d.journal == Some(p.evidence))
  }

  lemma {:induction false} StepKeepsContent(p: Package, pid: nat, s: Step, w0: World, u: World)
    requires Content(p, w0, u) && Ready(p, pid, s, u)
    ensures Content(p, w0, Exec(p, pid, s, u))
  {
  }

  lemma {:induction false} StepsKeepContent(p: Package, pid: nat, steps: seq<Step>, w0: World, u: World, k: nat)
    requires Content(p, w0, u) && Proper(p, pid, steps, u) && k <= |steps|
    ensures Content(p, w0, ExecAll(p, pid, steps[..k], u))
    decreases k
  {
    if k > 0 {
      assert steps[..k][1..] == steps[1..][..k - 1] && steps[..k][0] == steps[0];
      StepKeepsContent(p, pid, steps[0], w0, u);
      StepsKeepContent(p, pid, steps[1..], w0, Exec(p, pid, steps[0], u), k - 1);
    }
  }

  lemma {:induction false} StopKeepsContent(fmt: Format, legacy: Legacy, p: Package, w0: World, w: World, d: World)
    requires p.Valid(fmt) && Stops(fmt, legacy, p, w, d) && Content(p, w0, w)
    ensures Content(p, w0, d)
  {
    var pid: nat :| StoppedBy(fmt, legacy, p, pid, w, d);
    if d != w {
      var k: nat :| Litter(p, pid, After(fmt, p, pid, w, k), d);
      if k <= |Script(fmt, p, pid, w)| {
        ScriptIsProper(fmt, legacy, p, pid, w);
        StepsKeepContent(p, pid, Script(fmt, p, pid, w), w0, w, k);
      }
      LitterKeepsContent(p, pid, w0, After(fmt, p, pid, w, k), d);
    }
  }

  lemma {:induction false} LitterKeepsContent(p: Package, pid: nat, w0: World, u: World, d: World)
    requires Litter(p, pid, u, d) && Content(p, w0, u)
    ensures Content(p, w0, d)
  {
  }

  lemma {:induction false} RunsKeepContent(fmt: Format, legacy: Legacy, p: Package, ws: seq<World>)
    requires p.Valid(fmt) && StoppedRuns(fmt, legacy, p, ws)
    ensures Content(p, ws[0], ws[|ws| - 1])
  {
    if |ws| > 1 {
      RunsKeepContent(fmt, legacy, p, ws[..|ws| - 1]);
      StopKeepsContent(fmt, legacy, p, ws[0], ws[|ws| - 2], ws[|ws| - 1]);
    }
  }

  /**
    However often installs of a package are stopped, and wherever: every managed file is its old content or the new
    one, every release in place is whole, and `current` names one of them.
   */
  lemma {:induction false} NothingPartialInPlace(fmt: Format, legacy: Legacy, p: Package, ws: seq<World>)
    requires p.Valid(fmt) && StoppedRuns(fmt, legacy, p, ws) && Permits(fmt, legacy, p, ws[0])
    requires forall r | r in ws[0].releases :: fmt.whole(ws[0].releases[r])
    ensures var (w0, d) := (ws[0], ws[|ws| - 1]);
            && (forall n | n in d.files ::
                  (n in p.payloads && d.files[n] == p.payloads[n]) || (n in w0.files && d.files[n] == w0.files[n]))
            && (forall r | r in d.releases :: fmt.whole(d.releases[r]))
            && (d.link.Some? ==> d.link.value in d.releases)
            && (d.link != w0.link ==> Hashed(fmt, d.files) == Hashed(fmt, p.payloads))
  {
    RunsKeepContent(fmt, legacy, p, ws);
    RunsAreStopped(fmt, legacy, p, ws);
    PermittedIsAccepted(fmt, legacy, p, ws[0]);
    StopsAreSafe(legacy, AbsPackage(fmt, p), AbsAll(fmt, ws));
  }

  lemma {:induction false} PermitsIsAccepts(fmt: Format, legacy: Legacy, p: Package, w0: World, d: World)
    requires p.Valid(fmt) && Permits(fmt, legacy, p, w0) && Content(p, w0, d)
    ensures Permits(fmt, legacy, p, d) <==> Accepts(legacy, AbsPackage(fmt, p), Abs(fmt, d))
  {
    var id := p.identity.release;
    assert id in d.releases ==> Acceptable(fmt, p, d.releases[id]);
    assert d.files == map[] ==> Hashed(fmt, d.files) == map[];
    assert forall n | n in d.files :: n in Hashed(fmt, d.files);
  }

  /**
    On the files themselves: a stopped install is permitted again exactly if none or all of the files that differ
    were replaced.
   */
  lemma {:induction false} PermittedAgainExactlyAtNoneOrAll(fmt: Format, legacy: Legacy, p: Package, ws: seq<World>)
    requires p.Valid(fmt) && StoppedRuns(fmt, legacy, p, ws) && Permits(fmt, legacy, p, ws[0]) &&
              Settled(legacy, Abs(fmt, ws[0]))
    ensures var (w0, d) := (ws[0], ws[|ws| - 1]);
            Permits(fmt, legacy, p, d) <==>
              Hashed(fmt, d.files) == Hashed(fmt, w0.files) || Hashed(fmt, d.files) == Hashed(fmt, p.payloads)
  {
    RunsKeepContent(fmt, legacy, p, ws);
    RunsAreStopped(fmt, legacy, p, ws);
    PermittedIsAccepted(fmt, legacy, p, ws[0]);
    PermitsIsAccepts(fmt, legacy, p, ws[0], ws[|ws| - 1]);
    RepeatableExactlyAtNoneOrAll(legacy, AbsPackage(fmt, p), AbsAll(fmt, ws));
  }

  /** A run that is permitted, not disturbed and not blocked by a leftover finishes the install. */
  lemma {:induction false} UndisturbedRunFinishes(fmt: Format, legacy: Legacy, p: Package, pid: nat, w: World)
    requires p.Valid(fmt) && Permits(fmt, legacy, p, w) && !StagingTaken(p, pid, w) && !LinkTaken(p, pid, w)
    ensures var d := ExecAll(p, pid, Script(fmt, p, pid, w), w);
            Hashed(fmt, d.files) == Hashed(fmt, p.payloads) && d.link == Some(p.identity.release)
            && p.identity.release in d.releases && d.journal == Some(p.evidence)
  {
    var b, t, script := AbsPackage(fmt, p), Abs(fmt, w), Script(fmt, p, pid, w);
    ScriptIsProper(fmt, legacy, p, pid, w);
    ScriptEffects(fmt, legacy, p, pid, w);
    PermittedIsAccepted(fmt, legacy, p, w);
    assert script[..|script|] == script;
    Simulates(fmt, p, pid, script, w, |script|);
    StepsKeepContent(p, pid, script, w, w, |script|);
    AcceptedIsBetween(legacy, b, t);
    FinishedInstall(b, t, t);
    JournalIsLast(fmt, p, pid, w);
  }

  lemma {:induction false} AcceptedIsBetween(legacy: Legacy, b: Bundle, t: Target)
    requires b.Valid() && Accepts(legacy, b, t)
    ensures Between(b, t, t)
  {
  }

  lemma {:induction false} JournalIsLast(fmt: Format, p: Package, pid: nat, w: World)
    requires !StagingTaken(p, pid, w) && !LinkTaken(p, pid, w)
    ensures ExecAll(p, pid, Script(fmt, p, pid, w), w).journal == Some(p.evidence)
  {
    var r, f, l, j := ReleaseSteps(p, w), FileSteps(fmt, p, w, MANAGED), LinkSteps(p, w), JournalSteps(p);
    assert Script(fmt, p, pid, w) == (r + f + l) + j;
    ExecAppend(p, pid, r + f + l, j, w);
    JournalIsProper(p, pid, ExecAll(p, pid, r + f + l, w));
  }

  lemma {:induction false} ExecAppend(p: Package, pid: nat, a: seq<Step>, b: seq<Step>, u: World)
    ensures ExecAll(p, pid, a + b, u) == ExecAll(p, pid, b, ExecAll(p, pid, a, u))
    decreases |a|
  {
    if a == [] {
      assert a + b == b;
    } else {
      ExecAppend(p, pid, a[1..], b, Exec(p, pid, a[0], u));
      assert (a + b)[0] == a[0] && (a + b)[1..] == a[1..] + b;
    }
  }

  // ---------- the installer as the source writes it ----------

  /** Some stop point of `script` on `start`, with or without its cleanup. */
  ghost predicate Cut(p: Package, pid: nat, script: seq<Step>, start: World, d: World) {
    exists past: seq<Step> :: past <= script && Litter(p, pid, ExecAll(p, pid, past, start), d)
  }

  lemma {:induction false} CutIsStopped(fmt: Format, legacy: Legacy, p: Package, pid: nat, start: World, d: World)
    requires Permits(fmt, legacy, p, start) && Cut(p, pid, Script(fmt, p, pid, start), start, d)
    ensures StoppedBy(fmt, legacy, p, pid, start, d)
  {
    var script := Script(fmt, p, pid, start);
    var past: seq<Step> :| past <= script && Litter(p, pid, ExecAll(p, pid, past, start), d);
    assert past == script[..|past|];
    assert Litter(p, pid, After(fmt, p, pid, start, |past|), d);
  }

  lemma {:induction false} OneMoreStep(p: Package, pid: nat, past: seq<Step>, s: Step, start: World)
    ensures ExecAll(p, pid, past + [s], start) == Exec(p, pid, s, ExecAll(p, pid, past, start))
  {
    ExecAppend(p, pid, past, [s], start);
    assert [s][1..] == [];
  }

  lemma {:induction false} Reached(p: Package, pid: nat, past: seq<Step>, todo: seq<Step>, start: World, d: World)
    requires Litter(p, pid, ExecAll(p, pid, past, start), d)
    ensures Cut(p, pid, past + todo, start, d)
  {
  }

  class InstallTarget {
    const fmt: Format
    const p: Package
    const pid: nat
    const fails: nat -> bool  // which commands and checks of the run fail
    var w: World
    var asked: nat
    ghost var past: seq<Step>
    ghost var todo: seq<Step>

    constructor (fmt: Format, p: Package, pid: nat, fails: nat -> bool, w: World)
      ensures this.w == w && this.fmt == fmt && this.p == p && this.pid == pid && this.fails == fails
    {
      this.fmt, this.p, this.pid, this.fails, this.w := fmt, p, pid, fails, w;
      asked, past, todo := 0, [], [];
    }

    ghost predicate Smooth() {
      forall i: nat :: !fails(i)
    }

    /** The steps `past` have led from `start` to here, and `todo` are left of `script`. */
    ghost predicate On(script: seq<Step>, start: World)
      reads this
    {
      past + todo == script && w == ExecAll(p, pid, past, start)
    }

    /** The next step, unless a command or check before it fails. */
    method Take(s: Step, ghost rest: seq<Step>, ghost script: seq<Step>, ghost start: World) returns (ok: bool)
      requires On(script, start) && todo == [s] + rest
      modifies `w, `asked, `past, `todo
      ensures On(script, start)
      ensures Smooth() ==> ok
      ensures ok ==> w == Exec(p, pid, s, old(w)) && todo == rest && past == old(past) + [s]
      ensures !ok ==> w == old(w) && todo == old(todo) && past == old(past)
    {
      ok := !fails(asked);
      asked := asked + 1;
      if ok {
        OneMoreStep(p, pid, past, s, start);
        assert past + ([s] + rest) == past + [s] + rest;
        w := Exec(p, pid, s, w);
        past, todo := past + [s], rest;
      }
    }

    /** Two steps in a row. */
    method TakeTwo(s: Step, t: Step, ghost rest: seq<Step>, ghost script: seq<Step>, ghost start: World)
      returns (ok: bool)
      requires On(script, start) && todo == [s] + ([t] + rest)
      modifies `w, `asked, `past, `todo
      ensures On(script, start)
      ensures Smooth() ==> ok
      ensures ok ==> w == Exec(p, pid, t, Exec(p, pid, s, old(w))) && todo == rest && past == old(past) + [s] + [t]
    {
      ok := Take(s, [t] + rest, script, start);
      if ok {
        ok := Take(t, rest, script, start);
      }
    }

    /** The wheels are copied, the environment is made, and the application is installed into it. */
    method StageEnvironment(ghost rest: seq<Step>, ghost script: seq<Step>, ghost start: World) returns (ok: bool)
      requires On(script, start) && todo == EnvironmentSteps(p) + rest
      modifies `w, `asked, `past, `todo
      ensures On(script, start)
      ensures Smooth() ==> ok
      ensures ok ==> todo == rest && past == old(past) + EnvironmentSteps(p)
    {
      ghost var before := past;
      ghost var r := [PutPart(Venv, p.venv)] + ([PutPart(Application, p.application)] + rest);
      assert todo == [MakeStaging] + ([PutPart(Wheels, p.wheels)] + r);
      ok := TakeTwo(MakeStaging, PutPart(Wheels, p.wheels), r, script, start);
      if ok {
        ok := TakeTwo(PutPart(Venv, p.venv), PutPart(Application, p.application), rest, script, start);
        assert ok ==> past == before + EnvironmentSteps(p);
      }
    }

    /** The marker is written last, and the tree then renamed into place. */
    method MarkAndPublish(ghost rest: seq<Step>, ghost script: seq<Step>, ghost start: World) returns (ok: bool)
      requires On(script, start) && todo == MarkerSteps(p) + rest
      modifies `w, `asked, `past, `todo
      ensures On(script, start)
      ensures Smooth() ==> ok
      ensures ok ==> todo == rest && past == old(past) + MarkerSteps(p)
    {
      ghost var before := past;
      ghost var r := [NameMarker] + ([PublishRelease] + rest);
      assert todo == [DropPart(Wheels)] + ([PutPart(MarkerTmp, p.marker)] + r);
      ok := TakeTwo(DropPart(Wheels), PutPart(MarkerTmp, p.marker), r, script, start);
      if ok {
        ok := TakeTwo(NameMarker, PublishRelease, rest, script, start);
        assert ok ==> past == before + MarkerSteps(p);
      }
    }

    /** `_install_release`; an error removes the staging tree. */
    method InstallRelease(ghost rest: seq<Step>, ghost script: seq<Step>, ghost start: World) returns (ok: bool)
      requires On(script, start) && todo == ReleaseSteps(p, w) + rest && !StagingTaken(p, pid, w)
      modifies `w, `asked, `past, `todo
      ensures Smooth() ==> ok
      ensures ok ==> On(script, start) && todo == rest && past == old(past) + ReleaseSteps(p, old(w))
      ensures !ok ==> Cut(p, pid, script, start, w)
    {
      if p.identity.release in w.releases {
        assert [] + rest == rest && past + [] == past;
        return true;
      }
      assert EnvironmentSteps(p) + MarkerSteps(p) + rest == EnvironmentSteps(p) + (MarkerSteps(p) + rest);
      assert past + EnvironmentSteps(p) + MarkerSteps(p) == past + (EnvironmentSteps(p) + MarkerSteps(p));
      ok := StageEnvironment(MarkerSteps(p) + rest, script, start);
      if ok {
        ok := MarkAndPublish(rest, script, start);
      }
      if !ok {
        ghost var u := w;
        w := w.(staging := w.staging - {(p.identity.release, pid)});
        Cleaned(p, pid, u);
        Reached(p, pid, past, todo, start, w);
      }
    }

    /** Write a temporary and rename it; an error removes the temporary. */
    method WriteAtomically(content: Bytes, rename: Step, ghost rest: seq<Step>, ghost script: seq<Step>,
            ghost start: World)
      returns (ok: bool)
      requires rename == RenameToJournal || rename.RenameToFile?
      requires On(script, start) && todo == [OpenTemp, WriteTemp(content), rename] + rest
      modifies `w, `asked, `past, `todo
      ensures Smooth() ==> ok
      ensures ok ==> On(script, start) && todo == rest && past == old(past) + [OpenTemp, WriteTemp(content), rename]
      ensures ok ==> w == Exec(p, pid, rename, old(w).(temps := old(w).temps + [content]))
      ensures !ok ==> Cut(p, pid, script, start, w)
    {
      ghost var before, w0 := past, w;
      assert todo == [OpenTemp] + ([WriteTemp(content)] + ([rename] + rest));
      Writing(p, pid, w, content, rename);
      ok := Take(OpenTemp, [WriteTemp(content)] + ([rename] + rest), script, start);
      if !ok {
        Reached(p, pid, past, todo, start, w);
        return;
      }
      ok := TakeTwo(WriteTemp(content), rename, rest, script, start);
      if ok {
        assert past == before + [OpenTemp, WriteTemp(content), rename];
      } else {
        w := w.(temps := ButLast(w.temps));
        Reached(p, pid, past, todo, start, w);
      }
    }

    /** `_install_managed_file`: refuse a file that drifted, leave one that is up to date, replace any other. */
    method InstallManagedFile(n: Name, expected: Option<Hash>, ghost rest: seq<Step>, ghost script: seq<Step>,
            ghost start: World)
      returns (ok: bool)
      requires p.Valid(fmt) && On(script, start) && todo == FileStep(fmt, p, w, n) + rest
      modifies `w, `asked, `past, `todo
      ensures Smooth() && expected == old(Observed(fmt, w, n)) ==> ok
      ensures ok ==> expected == old(Observed(fmt, w, n))
      ensures ok ==> On(script, start) && todo == rest && past == old(past) + old(FileStep(fmt, p, w, n))
      ensures ok ==> forall m | m != n ::
                (m in w.files <==> m in old(w.files)) && (m in w.files ==> w.files[m] == old(w.files)[m])
      ensures !ok ==> Cut(p, pid, script, start, w)
    {
      if Observed(fmt, w, n) != expected {
        Reached(p, pid, past, todo, start, w);
        return false;
      }
      if UpToDateFile(fmt, p, w, n) {
        assert [] + rest == rest && past + [] == past;
        return true;
      }
      ok := WriteAtomically(p.payloads[n], RenameToFile(n), rest, script, start);
    }

    /** The managed files, in their order; `before` are the digests found before the run. */
    method InstallManagedFiles(before: Hashes, ghost rest: seq<Step>, ghost script: seq<Step>, ghost start: World)
      returns (ok: bool)
      requires p.Valid(fmt) && On(script, start) && todo == FileSteps(fmt, p, start, MANAGED) + rest
      requires w.files == start.files && before == Hashed(fmt, start.files)
      modifies `w, `asked, `past, `todo
      ensures Smooth() ==> ok
      ensures ok ==> On(script, start) && todo == rest && past == old(past) + FileSteps(fmt, p, start, MANAGED)
      ensures !ok ==> Cut(p, pid, script, start, w)
    {
      ghost var past0, all := past, FileSteps(fmt, p, start, MANAGED);
      ok := true;
      for i := 0 to |MANAGED|
        invariant On(script, start) && todo == FileSteps(fmt, p, start, MANAGED[i..]) + rest
        invariant past + FileSteps(fmt, p, start, MANAGED[i..]) == past0 + all
        invariant SameFiles(w, start, MANAGED[i..])
      {
        var n := MANAGED[i];
        ghost var later := MANAGED[i + 1..];
        ghost var next := FileSteps(fmt, p, start, later);
        FirstFile(fmt, p, w, start, MANAGED[i..], past, rest);
        ok := InstallManagedFile(n, if n in before then Some(before[n]) else None, next + rest, script, start);
        if !ok {
          return;
        }
      }
      assert MANAGED[|MANAGED|..] == [];
      assert [] + rest == rest && past + [] == past;
    }

    /** `_switch_current`; a link of an earlier process with the same number is not overwritten. */
    method SwitchLink(ghost rest: seq<Step>, ghost script: seq<Step>, ghost start: World) returns (ok: bool)
      requires On(script, start) && !LinkTaken(p, pid, w) && todo == LinkSteps(p, w) + rest
      modifies `w, `asked, `past, `todo
      ensures Smooth() ==> ok
      ensures ok ==> On(script, start) && todo == rest
      ensures !ok ==> Cut(p, pid, script, start, w)
    {
      if w.link == Some(p.identity.release) {
        assert [] + rest == rest;
        return true;
      }
      assert todo == [MakeLink] + ([RenameLink] + rest);
      ok := TakeTwo(MakeLink, RenameLink, rest, script, start);
      if !ok {
        Reached(p, pid, past, todo, start, w);
      }
    }

    /** The link and the journal. */
    method Finish(ghost script: seq<Step>, ghost start: World) returns (ok: bool)
      requires On(script, start) && todo == EndSteps(p, pid, w)
      modifies `w, `asked, `past, `todo
      ensures ok ==> On(script, start) && todo == [] && !old(LinkTaken(p, pid, w))
      ensures Smooth() && !old(LinkTaken(p, pid, w)) ==> ok
      ensures !ok ==> Cut(p, pid, script, start, w)
    {
      if LinkTaken(p, pid, w) {
        Reached(p, pid, past, todo, start, w);
        return false;
      }
      ok := SwitchLink(JournalSteps(p), script, start);
      if ok {
        assert todo == JournalSteps(p) + [];
        ok := WriteAtomically(p.evidence, RenameToJournal, [], script, start);
      }
    }

    /** `ready` is the answer of every check that precedes the first change and reads none of these files. */
    method Install(legacy: Legacy, ready: bool) returns (ok: bool)
      requires p.Valid(fmt)
      modifies `w, `asked, `past, `todo
      ensures StoppedBy(fmt, legacy, p, pid, old(w), w)
      ensures ok ==>
                && ready && Permits(fmt, legacy, p, old(w))
                && !StagingTaken(p, pid, old(w)) && !LinkTaken(p, pid, old(w))
      ensures ok ==> w == ExecAll(p, pid, Script(fmt, p, pid, old(w)), old(w))
      ensures (&& ready && Permits(fmt, legacy, p, old(w))
               && !StagingTaken(p, pid, old(w)) && !LinkTaken(p, pid, old(w)) && Smooth()) ==> ok
    {
      if !ready || !Permits(fmt, legacy, p, w) || StagingTaken(p, pid, w) {
        return false;
      }
      ghost var start, script := w, Script(fmt, p, pid, w);
      ghost var r, f, e := ReleaseSteps(p, w), FileSteps(fmt, p, w, MANAGED), EndSteps(p, pid, w);
      past, todo := [], script;
      assert [] + script == script;
      ReleaseIsProper(fmt, legacy, p, pid, start);
      FilesAreProper(fmt, p, pid, start, ExecAll(p, pid, r, start), MANAGED);
      ExecAppend(p, pid, r, f, start);
      var before := Hashed(fmt, w.files);
      ok := InstallRelease(f + e, script, start);
      assert [] + r == r;
      if ok {
        ok := InstallManagedFiles(before, e, script, start);
      }
      if ok {
        assert w.link == start.link && w.links == start.links;
        ok := Finish(script, start);
      }
      if ok {
        assert past + [] == past;
        Reached(p, pid, past, todo, start, w);
      }
      CutIsStopped(fmt, legacy, p, pid, start, w);
    }
  }

  predicate SameFiles(u: World, v: World, ns: seq<Name>) {
    forall n | n in ns :: (n in u.files <==> n in v.files) && (n in u.files ==> u.files[n] == v.files[n])
  }

  function Observed(fmt: Format, w: World, n: Name): Option<Hash> {
    if n in w.files then Some(fmt.hash(w.files[n])) else None
  }

  /** The first of the files still to do, as it is now and as it was at the start. */
  lemma {:induction false} FirstFile(fmt: Format, p: Package, w: World, start: World, ns: seq<Name>, past: seq<Step>,
          rest: seq<Step>)
    requires ns != [] && SameFiles(w, start, ns) && forall i, j | 0 <= i < j < |ns| :: ns[i] != ns[j]
    ensures var (n, later) := (ns[0], ns[1..]);
            var next := FileSteps(fmt, p, start, later);
            && Observed(fmt, w, n) == Observed(fmt, start, n)
            && FileSteps(fmt, p, start, ns) + rest == FileStep(fmt, p, w, n) + (next + rest)
            && past + FileSteps(fmt, p, start, ns) == past + FileStep(fmt, p, w, n) + next
            && n !in later && forall m | m in later :: m in ns
  {
    var n, later := ns[0], ns[1..];
    assert n in ns && ns == [n] + later;
    var a, b := FileStep(fmt, p, w, n), FileSteps(fmt, p, start, later);
    assert FileSteps(fmt, p, start, ns) == a + b;
    assert a + b + rest == a + (b + rest) && past + (a + b) == past + a + b;
  }

  lemma {:induction false} Cleaned(p: Package, pid: nat, u: World)
    ensures var key := (p.identity.release, pid); Litter(p, pid, u, u.(staging := u.staging - {key}))
  {
    var key := (p.identity.release, pid);
    assert u.staging - {key} - {key} == u.staging - {key};
  }
}
