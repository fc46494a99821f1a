/**
  Installing an application release over an earlier one: the release tree, four managed files, the `current` link and
  the journal are each replaced atomically, in this order, and a run may stop after any of them.
 */
module Installer {
  import opened Common

  datatype Name = ConfigToml | StorageCheckUnit | NetworkFallbackUnit | RecorderUnit

  /** The order in which the managed files are installed. */
  const MANAGED: seq<Name> := [ConfigToml, StorageCheckUnit, NetworkFallbackUnit, RecorderUnit]

  type Hash = string
  type Hashes = map<Name, Hash>

  predicate Full(h: Hashes) {
    forall n: Name :: n in h
  }

  /** A release and the digest of its manifest, as its marker and the journal record them. */
  datatype Identity = Identity(release: string, manifest: Hash)

  /** The evidence of a finished install; journals of the first releases lack the managed files' hashes. */
  datatype Journal = Journal(identity: Identity, hashes: Option<Hashes>)

  /** The digests of a legacy release that is accepted without journalled hashes. */
  datatype Legacy = Legacy(identity: Identity, hashes: Hashes)

  datatype Target = Target(
    releases: map<string, Hash>,  // complete releases with their markers' manifest digests
    files: Hashes,                // the managed files present
    current: Option<string>,
    journal: Option<Journal>)

  datatype Bundle = Bundle(identity: Identity, desired: Hashes) {
    ghost predicate Valid() {
      Full(desired)
    }
  }

  // ---------- the checks before an install ----------

  /** The active release; a link to anything else is an error, here `Some(None)`. */
  function CurrentIdentity(t: Target): Option<Option<Identity>> {
    match t.current
    case None => None
    case Some(release) =>
      if release in t.releases then Some(Some(Identity(release, t.releases[release]))) else Some(None)
  }

  predicate Authorized(legacy: Legacy, t: Target) {
    && Full(t.files)
    && t.journal.Some?
    && CurrentIdentity(t) == Some(Some(t.journal.value.identity))
    && (match t.journal.value.hashes
        case Some(hashes) => hashes == t.files
        case None => t.journal.value.identity == legacy.identity && t.files == legacy.hashes)
  }

  /** `_managed_prestate` does not refuse. */
  predicate Accepts(legacy: Legacy, b: Bundle, t: Target) {
    && (t.files != map[] && t.files != b.desired ==> Authorized(legacy, t))
    && (b.identity.release in t.releases ==> t.releases[b.identity.release] == b.identity.manifest)
    && CurrentIdentity(t) != Some(None)
  }

  // ---------- the effects of an install ----------

  datatype Effect = AddRelease | ReplaceFile(n: Name) | SwitchCurrent | WriteJournal

  function Do(b: Bundle, t: Target, e: Effect): Target {
    match e
    case AddRelease => t.(releases := t.releases[b.identity.release := b.identity.manifest])
    case ReplaceFile(n) => if n in b.desired then t.(files := t.files[n := b.desired[n]]) else t
    case SwitchCurrent => t.(current := Some(b.identity.release))
    case WriteJournal => t.(journal := Some(Journal(b.identity, Some(b.desired))))
  }

  function DoAll(b: Bundle, t: Target, es: seq<Effect>): Target
    decreases |es|
  {
    if es == [] then t else DoAll(b, Do(b, t, es[0]), es[1..])
  }

  predicate UpToDate(b: Bundle, t: Target, n: Name) {
    n in t.files && n in b.desired && t.files[n] == b.desired[n]
  }

  function Replacements(b: Bundle, t: Target, ns: seq<Name>): seq<Effect> {
    if ns == [] then []
    else if UpToDate(b, t, ns[0]) then Replacements(b, t, ns[1..])
    else [ReplaceFile(ns[0])] + Replacements(b, t, ns[1..])
  }

  function Ending(b: Bundle, t: Target): seq<Effect> {
    if t.current == Some(b.identity.release) then [WriteJournal] else [SwitchCurrent, WriteJournal]
  }

  /** What an accepted install does, in order. */
  function Effects(b: Bundle, t: Target): seq<Effect> {
    if b.identity.release in t.releases then Replacements(b, t, MANAGED) + Ending(b, t)
    else [AddRelease] + (Replacements(b, t, MANAGED) + Ending(b, t))
  }

  /** `u` may be left by an install of `b` on `t` that stopped anywhere. */
  ghost predicate Stopped(legacy: Legacy, b: Bundle, t: Target, u: Target) {
    if !Accepts(legacy, b, t) then u == t
    else exists k | 0 <= k <= |Effects(b, t)| :: u == DoAll(b, t, Effects(b, t)[..k])
  }

  ghost predicate StoppedInstalls(legacy: Legacy, b: Bundle, ts: seq<Target>) {
    && ts != []
    && forall i | 0 < i < |ts| :: Stopped(legacy, b, ts[i - 1], ts[i])
  }

  // ---------- where repeated installs can get to ----------

  /** A target with nothing installed, or with one finished install. */
  ghost predicate Settled(legacy: Legacy, t: Target) {
    || (t.files == map[] && t.current == None && t.journal == None)
    || Authorized(legacy, t)
  }

  /** Between the settled `t0` and the finished install of `b`. */
  ghost predicate Between(b: Bundle, t0: Target, t: Target) {
    && b.Valid()
    && (t.releases == t0.releases || t.releases == t0.releases[b.identity.release := b.identity.manifest])
    && (b.identity.release in t0.releases ==> t0.releases[b.identity.release] == b.identity.manifest)
    && t0.files.Keys <= t.files.Keys
    && (forall n | n in t.files :: UpToDate(b, t, n) || (n in t0.files && t.files[n] == t0.files[n]))
    && (|| (t.current == t0.current && t.journal == t0.journal)
        || (&& t.files == b.desired
            && t.current == Some(b.identity.release)
            && b.identity.release in t.releases
            && (t.journal == t0.journal || t.journal == Some(Journal(b.identity, Some(b.desired))))))
  }

  lemma {:induction false} OtherReplacements(b: Bundle, t: Target, n: Name, ns: seq<Name>)
    requires n !in ns
    ensures Replacements(b, Do(b, t, ReplaceFile(n)), ns) == Replacements(b, t, ns)
  {
    if ns != [] {
      OtherReplacements(b, t, n, ns[1..]);
    }
  }

  lemma {:induction false} OneReplacement(b: Bundle, t: Target, ns: seq<Name>)
    requires b.Valid() && (forall i, j | 0 <= i < j < |ns| :: ns[i] != ns[j]) && Replacements(b, t, ns) != []
    ensures var e := Replacements(b, t, ns)[0];
            e.ReplaceFile? && Replacements(b, Do(b, t, e), ns) == Replacements(b, t, ns)[1..]
  {
    assert ns[0] !in ns[1..];
    if UpToDate(b, t, ns[0]) {
      OneReplacement(b, t, ns[1..]);
    } else {
      OtherReplacements(b, t, ns[0], ns[1..]);
    }
  }

  lemma {:induction false} NoReplacements(b: Bundle, t: Target, ns: seq<Name>)
    requires Replacements(b, t, ns) == []
    ensures forall n | n in ns :: UpToDate(b, t, n)
  {
    if ns != [] {
      NoReplacements(b, t, ns[1..]);
      assert ns == [ns[0]] + ns[1..];
    }
  }

  lemma AllManaged(n: Name)
    ensures n in MANAGED
  {
    assert MANAGED[0] == ConfigToml && MANAGED[1] == StorageCheckUnit && MANAGED[2] == NetworkFallbackUnit
        && MANAGED[3] == RecorderUnit;
  }

  lemma NothingToReplace(b: Bundle, t: Target)
    requires b.Valid() && Replacements(b, t, MANAGED) == []
    ensures t.files == b.desired
  {
    NoReplacements(b, t, MANAGED);
    forall n: Name ensures n in t.files && n in b.desired && t.files[n] == b.desired[n] {
      AllManaged(n);
    }
  }

  /** After one effect, exactly the remaining ones are left to do, and the target is still between old and new. */
  lemma OneEffect(b: Bundle, t0: Target, t: Target)
    requires Between(b, t0, t)
    ensures var e := Effects(b, t)[0]; Between(b, t0, Do(b, t, e))
    ensures |Effects(b, t)| > 1 ==> Effects(b, Do(b, t, Effects(b, t)[0])) == Effects(b, t)[1..]
  {
    var r := Replacements(b, t, MANAGED);
    if b.identity.release !in t.releases {
      SameReplacements(b, t, Do(b, t, AddRelease), MANAGED);
    } else if r != [] {
      OneReplacement(b, t, MANAGED);
      assert Effects(b, t)[0] == r[0] && Effects(b, t)[1..] == r[1..] + Ending(b, t);
    } else {
      NothingToReplace(b, t);
      SameReplacements(b, t, Do(b, t, SwitchCurrent), MANAGED);
    }
  }

  lemma {:induction false} SameReplacements(b: Bundle, t: Target, u: Target, ns: seq<Name>)
    requires t.files == u.files
    ensures Replacements(b, t, ns) == Replacements(b, u, ns)
  {
    if ns != [] {
      SameReplacements(b, t, u, ns[1..]);
    }
  }

  lemma {:induction false} SomeEffects(b: Bundle, t0: Target, t: Target, k: nat)
    requires Between(b, t0, t) && k <= |Effects(b, t)|
    ensures Between(b, t0, DoAll(b, t, Effects(b, t)[..k]))
    decreases k
  {
    var es := Effects(b, t);
    if k > 0 {
      OneEffect(b, t0, t);
      var u := Do(b, t, es[0]);
      if |es| > 1 {
        assert es[..k][1..] == es[1..][..k - 1];
        SomeEffects(b, t0, u, k - 1);
      } else {
        assert es[..k][1..] == [];
      }
    }
  }

  /** Replacing every file and journalling them: what a run that is not stopped leaves. */
  lemma {:induction false} FinishedInstall(b: Bundle, t0: Target, t: Target)
    requires Between(b, t0, t)
    ensures var u := DoAll(b, t, Effects(b, t));
            u.files == b.desired && u.current == Some(b.identity.release)
            && u.journal == Some(Journal(b.identity, Some(b.desired))) && b.identity.release in u.releases
    decreases |Effects(b, t)|
  {
    var es := Effects(b, t);
    OneEffect(b, t0, t);
    if |es| > 1 {
      FinishedInstall(b, t0, Do(b, t, es[0]));
    } else {
      NothingToReplace(b, t);
      assert es[1..] == [];
    }
  }

  lemma {:induction false} EveryStop(legacy: Legacy, b: Bundle, ts: seq<Target>)
    requires b.Valid() && StoppedInstalls(legacy, b, ts) && Accepts(legacy, b, ts[0])
    ensures Between(b, ts[0], ts[|ts| - 1])
  {
    var last := |ts| - 1;
    if last > 0 {
      EveryStop(legacy, b, ts[..last]);
      var t := ts[last - 1];
      assert Stopped(legacy, b, t, ts[last]);
      if Accepts(legacy, b, t) {
        var k: nat :| k <= |Effects(b, t)| && ts[last] == DoAll(b, t, Effects(b, t)[..k]);
        SomeEffects(b, ts[0], t, k);
      }
    }
  }

  /**
    However often installs of a bundle are stopped: `current`, if present, names a complete release, and every
    managed file is the old one or the new one; `current` changes only when all of them are new.
   */
  lemma StopsAreSafe(legacy: Legacy, b: Bundle, ts: seq<Target>)
    requires b.Valid() && StoppedInstalls(legacy, b, ts) && Accepts(legacy, b, ts[0])
    ensures var (t0, t) := (ts[0], ts[|ts| - 1]);
            && (t.current.Some? ==> t.current.value in t.releases)
            && (forall n: Name :: UpToDate(b, t, n) || (n in t.files <==> n in t0.files))
            && (forall n | n in t.files :: UpToDate(b, t, n) || t.files[n] == t0.files[n])
            && (t.current != t0.current ==> t.files == b.desired)
  {
    EveryStop(legacy, b, ts);
  }

  /**
    A stopped install can be repeated exactly if it had replaced none or all of the managed files that differ, and
    the repetition then finishes what is left.
   */
  lemma RepeatableExactlyAtNoneOrAll(legacy: Legacy, b: Bundle, ts: seq<Target>)
    requires b.Valid() && StoppedInstalls(legacy, b, ts) && Accepts(legacy, b, ts[0]) && Settled(legacy, ts[0])
    ensures var (t0, t) := (ts[0], ts[|ts| - 1]);
            && (Accepts(legacy, b, t) <==> t.files == t0.files || t.files == b.desired)
            && (Accepts(legacy, b, t) ==> Authorized(legacy, DoAll(b, t, Effects(b, t))))
  {
    EveryStop(legacy, b, ts);
    FinishedInstall(b, ts[0], ts[|ts| - 1]);
    SomeEffects(b, ts[0], ts[|ts| - 1], |Effects(b, ts[|ts| - 1])|);
    var t := ts[|ts| - 1];
    assert Effects(b, t)[..|Effects(b, t)|] == Effects(b, t);
  }

  /**
    From the first replaced file until the journal is written, a bundle is accepted exactly if it asks for the very
    files found and does not clash with an installed release.
   */
  lemma MixedFilesBlockEveryBundle(legacy: Legacy, b: Bundle, ts: seq<Target>, other: Bundle)
    requires b.Valid() && StoppedInstalls(legacy, b, ts) && Accepts(legacy, b, ts[0]) && Settled(legacy, ts[0])
    requires ts[|ts| - 1].files != ts[0].files && ts[|ts| - 1].journal == ts[0].journal
    ensures var (t, release) := (ts[|ts| - 1], other.identity.release);
            Accepts(legacy, other, t) <==>
              && other.desired == t.files
              && (release in t.releases ==> t.releases[release] == other.identity.manifest)
  {
    EveryStop(legacy, b, ts);
  }

  // ---------- an install that cannot be repeated ----------

  const OLD_FILES: Hashes :=
    map[ConfigToml := "old", StorageCheckUnit := "old", NetworkFallbackUnit := "old", RecorderUnit := "old"]
  const NEW_FILES: Hashes :=
    map[ConfigToml := "new", StorageCheckUnit := "new", NetworkFallbackUnit := "old", RecorderUnit := "old"]
  const MIXED_FILES: Hashes :=
    map[ConfigToml := "new", StorageCheckUnit := "old", NetworkFallbackUnit := "old", RecorderUnit := "old"]
  const FIRST := Target(map["r1" := "m1"], OLD_FILES, Some("r1"), Some(Journal(Identity("r1", "m1"), Some(OLD_FILES))))
  const SECOND := Bundle(Identity("r2", "m2"), NEW_FILES)

  lemma ExampleIsFull(n: Name)
    ensures n in OLD_FILES && n in NEW_FILES
  {
    match n
    case ConfigToml =>
    case StorageCheckUnit =>
    case NetworkFallbackUnit =>
    case RecorderUnit =>
  }

  lemma {:induction false} HalfwayStates(legacy: Legacy)
    ensures SECOND.Valid() && Authorized(legacy, FIRST) && Accepts(legacy, SECOND, FIRST)
  {
    forall n: Name
      ensures n in OLD_FILES && n in NEW_FILES
    {
      ExampleIsFull(n);
    }
  }

  lemma {:induction false} TwoFilesDiffer(t: Target)
    requires t.files == OLD_FILES
    ensures Replacements(SECOND, t, MANAGED) == [ReplaceFile(ConfigToml), ReplaceFile(StorageCheckUnit)]
  {
    assert MANAGED[1..] == [StorageCheckUnit, NetworkFallbackUnit, RecorderUnit];
    assert MANAGED[1..][1..] == [NetworkFallbackUnit, RecorderUnit];
    assert Replacements(SECOND, t, [RecorderUnit]) == [];
    assert Replacements(SECOND, t, [NetworkFallbackUnit, RecorderUnit]) == [];
    assert Replacements(SECOND, t, MANAGED[1..]) == [ReplaceFile(StorageCheckUnit)] + [];
  }

  /** An upgrade that differs in two files and stops after the first of them leaves a target it does not accept. */
  lemma {:induction false} StoppedHalfwayHappens(legacy: Legacy)
    ensures var mixed := FIRST.(releases := FIRST.releases["r2" := "m2"], files := MIXED_FILES);
            && SECOND.Valid() && Authorized(legacy, FIRST) && Accepts(legacy, SECOND, FIRST)
            && StoppedInstalls(legacy, SECOND, [FIRST, mixed])
            && !Accepts(legacy, SECOND, mixed)
  {
    var mixed := FIRST.(releases := FIRST.releases["r2" := "m2"], files := MIXED_FILES);
    HalfwayStates(legacy);
    TwoFilesDiffer(FIRST);
    var es := Effects(SECOND, FIRST);
    assert es[0] == AddRelease && es[1] == ReplaceFile(ConfigToml) && |es| >= 2;
    assert es[..2] == [AddRelease, ReplaceFile(ConfigToml)] && es[..2][1..] == [ReplaceFile(ConfigToml)];
    assert [ReplaceFile(ConfigToml)][1..] == [];
    var t1 := Do(SECOND, FIRST, AddRelease);
    assert DoAll(SECOND, t1, [ReplaceFile(ConfigToml)]) == mixed;
    assert DoAll(SECOND, FIRST, es[..2]) == mixed;
    assert FIRST.files[ConfigToml] == "old" && mixed.files[ConfigToml] == "new" && NEW_FILES[StorageCheckUnit] == "new";
    assert mixed.files[StorageCheckUnit] == "old";
  }

  /** The upgrade stopped when everything but the journal is new. */
  const UNJOURNALLED :=
    Target(FIRST.releases["r2" := "m2"], NEW_FILES, Some("r2"), FIRST.journal)

  lemma DoCons(b: Bundle, t: Target, e: Effect, rest: seq<Effect>)
    ensures DoAll(b, t, [e] + rest) == DoAll(b, Do(b, t, e), rest)
  {
    assert ([e] + rest)[1..] == rest;
  }

  lemma {:induction false} AllButTheJournal()
    ensures var es := Effects(SECOND, FIRST);
            |es| == 5 && DoAll(SECOND, FIRST, es[..4]) == UNJOURNALLED
  {
    var last := [SwitchCurrent] + [];
    var two := [ReplaceFile(StorageCheckUnit)] + last;
    var three := [ReplaceFile(ConfigToml)] + two;
    TwoFilesDiffer(FIRST);
    assert Effects(SECOND, FIRST)[..4] == [AddRelease] + three;
    var t1 := Do(SECOND, FIRST, AddRelease);
    var t2 := Do(SECOND, t1, ReplaceFile(ConfigToml));
    var t3 := Do(SECOND, t2, ReplaceFile(StorageCheckUnit));
    assert t3.files == NEW_FILES;
    DoCons(SECOND, FIRST, AddRelease, three);
    DoCons(SECOND, t1, ReplaceFile(ConfigToml), two);
    DoCons(SECOND, t2, ReplaceFile(StorageCheckUnit), last);
    DoCons(SECOND, t3, SwitchCurrent, []);
  }

  /** Stopped there, the upgrade can be repeated, but the release it came from cannot be installed again. */
  lemma {:induction false} UnjournalledHappens(legacy: Legacy)
    ensures StoppedInstalls(legacy, SECOND, [FIRST, UNJOURNALLED])
    ensures Accepts(legacy, SECOND, UNJOURNALLED)
    ensures var first := Bundle(Identity("r1", "m1"), OLD_FILES);
            first.Valid() && Accepts(legacy, first, FIRST) && !Accepts(legacy, first, UNJOURNALLED)
  {
    HalfwayStates(legacy);
    AllButTheJournal();
    assert Stopped(legacy, SECOND, FIRST, UNJOURNALLED);
    assert OLD_FILES[ConfigToml] != NEW_FILES[ConfigToml];
    forall n: Name ensures n in OLD_FILES { ExampleIsFull(n); }
  }
}
