/** The life of one clip: its lifecycle graph, its protection flag and its download leases, in nanoseconds. */
module Clips {
  import opened Common

  datatype Lifecycle =
    | Creating | Writing | Finalizing | Finalized | Deleting | Deleted
    | Corrupt | Quarantined | MissingSidecar | MissingVideo

  const NANOSECONDS_PER_SECOND := 1_000_000_000
  const MAX_LEASE := 15 * 60 * NANOSECONDS_PER_SECOND
  const MAX_HOLDER := 128

  function Successors(s: Lifecycle): set<Lifecycle> {
    match s
    case Creating => {Writing, Corrupt, Quarantined}
    case Writing => {Finalizing, Corrupt, Quarantined}
    case Finalizing => {Finalized, Corrupt, Quarantined, MissingSidecar, MissingVideo}
    case Finalized => {Deleting, Corrupt, Quarantined, MissingSidecar, MissingVideo}
    case Deleting => {Deleted, Finalized, Corrupt, Quarantined, MissingSidecar, MissingVideo}
    case Deleted => {}
    case Corrupt => {Quarantined}
    case Quarantined => {}
    case MissingSidecar => {Finalized, Quarantined}
    case MissingVideo => {Finalized, Quarantined}
  }

  predicate Alphanumeric(ch: char) {
    'A' <= ch <= 'Z' || 'a' <= ch <= 'z' || '0' <= ch <= '9'
  }

  predicate SafeHolder(holder: string) {
    && 1 <= |holder| <= MAX_HOLDER
    && Alphanumeric(holder[0])
    && forall i | 0 <= i < |holder| :: Alphanumeric(holder[i]) || holder[i] in "._:-"
  }

  datatype Lease = Lease(holder: string, issued: int, expires: int) {
    predicate ActiveAt(now: int) {
      now < expires
    }
  }

  datatype Error = TransitionError | LeaseError

  datatype Result<+T> = Ok(value: T) | Err(error: Error)

  /** `DownloadLease.issue`, with the checks of the lease's own constructor. */
  function Issue(holder: string, now: int, duration: int): Result<Lease> {
    if duration <= 0 || duration > MAX_LEASE then Err(LeaseError)
    else if !SafeHolder(holder) || now < 0 then Err(LeaseError)
    else Ok(Lease(holder, now, now + duration))
  }

  datatype Clip = Clip(lifecycle: Lifecycle, protected: bool, lease: Option<Lease>) {
    function TransitionTo(target: Lifecycle): Result<Clip> {
      if target !in Successors(lifecycle) then Err(TransitionError)
      else if target == Deleted && lease.Some? then Err(TransitionError)
      else Ok(this.(lifecycle := target))
    }

    function SetProtected(value: bool): Result<Clip> {
      if lifecycle == Deleted then Err(TransitionError) else Ok(this.(protected := value))
    }

    /** Asking at a negative time is an error only if there is a lease to ask. */
    function HasActiveLease(now: int): Result<bool> {
      if lease.None? then Ok(false)
      else if now < 0 then Err(LeaseError)
      else Ok(lease.value.ActiveAt(now))
    }

    function Acquire(holder: string, now: int, duration: int): Result<Clip> {
      if now < 0 then Err(LeaseError)
      else if lifecycle != Finalized then Err(LeaseError)
      else if HasActiveLease(now) == Ok(true) then Err(LeaseError)
      else
        match Issue(holder, now, duration)
        case Err(e) => Err(e)
        case Ok(l) => Ok(this.(lease := Some(l)))
    }

    function ClearExpired(now: int): Result<Clip> {
      match HasActiveLease(now)
      case Err(e) => Err(e)
      case Ok(active) => if active then Ok(this) else Ok(this.(lease := None))
    }

    function Release(holder: string): Result<Clip> {
      if lease.None? then Ok(this)
      else if lease.value.holder != holder then Err(LeaseError)
      else Ok(this.(lease := None))
    }

    function RetentionEligible(now: int): Result<bool> {
      if lifecycle != Finalized || protected then Ok(false)
      else
        match HasActiveLease(now)
        case Err(e) => Err(e)
        case Ok(active) => Ok(!active)
    }
  }

  const NEW_CLIP := Clip(Creating, false, None)

  // ---------- timed runs ----------

  datatype Call =
    | Move(target: Lifecycle)
    | Protect(value: bool)
    | Grant(holder: string, duration: int)
    | Clear
    | GiveBack(holder: string)

  datatype Event = Event(at: int, call: Call)

  function Apply(clip: Clip, e: Event): Result<Clip> {
    match e.call
    case Move(target) => clip.TransitionTo(target)
    case Protect(value) => clip.SetProtected(value)
    case Grant(holder, duration) => clip.Acquire(holder, e.at, duration)
    case Clear => clip.ClearExpired(e.at)
    case GiveBack(holder) => clip.Release(holder)
  }

  /** A refused call leaves the record as it was. */
  function After(clip: Clip, e: Event): Clip {
    match Apply(clip, e)
    case Ok(c) => c
    case Err(_) => clip
  }

  function Run(clip: Clip, events: seq<Event>): Clip {
    if events == [] then clip else After(Run(clip, events[..|events| - 1]), events[|events| - 1])
  }

  ghost predicate Forward(events: seq<Event>) {
    && (forall i | 0 <= i < |events| :: 0 <= events[i].at)
    && (forall i, j | 0 <= i < j < |events| :: events[i].at <= events[j].at)
  }

  function LastTime(events: seq<Event>): int {
    if events == [] then 0 else events[|events| - 1].at
  }

  // ---------- leases exclude each other ----------

  /** A granted lease counts from its issue until it expires or is released, whichever is first. */
  datatype Interval = Interval(from: int, until: int)

  function Min(a: int, b: int): int {
    if a < b then a else b
  }

  function NextGrants(clip: Clip, grants: seq<Interval>, e: Event): seq<Interval> {
    var after := After(clip, e);
    if e.call.Grant? && Apply(clip, e).Ok? && after.lease.Some? then
      grants + [Interval(after.lease.value.issued, after.lease.value.expires)]
    else if e.call.GiveBack? && clip.lease.Some? && after.lease.None? && grants != [] then
      var last := grants[|grants| - 1];
      grants[|grants| - 1 := Interval(last.from, Min(last.until, e.at))]
    else grants
  }

  /** The leases granted in a run, in order. */
  function Grants(events: seq<Event>): seq<Interval> {
    if events == [] then []
    else
      var p := events[..|events| - 1];
      NextGrants(Run(NEW_CLIP, p), Grants(p), events[|events| - 1])
  }

  ghost predicate LedgerInv(clip: Clip, grants: seq<Interval>, now: int) {
    && (forall i, j | 0 <= i < j < |grants| :: grants[i].until <= grants[j].from)
    && (clip.lease.Some? ==>
          && grants != []
          && grants[|grants| - 1] == Interval(clip.lease.value.issued, clip.lease.value.expires)
          && clip.lease.value.issued <= now
          && clip.lease.value.expires <= clip.lease.value.issued + MAX_LEASE)
    && (clip.lease.None? ==> forall i | 0 <= i < |grants| :: grants[i].until <= now)
    && (forall i | 0 <= i < |grants| - 1 :: grants[i].until <= now)
  }

  lemma {:induction false} LedgerStep(clip: Clip, grants: seq<Interval>, now: int, e: Event)
    requires LedgerInv(clip, grants, now) && 0 <= now <= e.at
    ensures LedgerInv(After(clip, e), NextGrants(clip, grants, e), e.at)
  {
  }

  lemma {:induction false} LedgerHolds(events: seq<Event>)
    requires Forward(events)
    ensures LedgerInv(Run(NEW_CLIP, events), Grants(events), LastTime(events))
  {
    if events != [] {
      var p := events[..|events| - 1];
      LedgerHolds(p);
      LedgerStep(Run(NEW_CLIP, p), Grants(p), LastTime(p), events[|events| - 1]);
    }
  }

  /** At no moment do two of the leases ever granted to a clip overlap. */
  lemma {:induction false} LeasesNeverOverlap(events: seq<Event>, i: nat, j: nat, t: int)
    requires Forward(events) && i < j < |Grants(events)|
    ensures !(Grants(events)[i].from <= t < Grants(events)[i].until &&
              Grants(events)[j].from <= t < Grants(events)[j].until)
  {
    LedgerHolds(events);
  }

  // ---------- retention cannot be blocked for ever ----------

  /** Events that neither grant a lease nor change the lifecycle or the protection. */
  predicate Quiet(events: seq<Event>) {
    forall i | 0 <= i < |events| :: events[i].call.Clear? || events[i].call.GiveBack?
  }

  /** A record only loses its lease in quiet events. */
  lemma {:induction false} QuietRun(clip: Clip, events: seq<Event>)
    requires Quiet(events)
    ensures var c := Run(clip, events);
            c.lifecycle == clip.lifecycle && c.protected == clip.protected && (c.lease == clip.lease || c.lease == None)
  {
    if events != [] {
      QuietRun(clip, events[..|events| - 1]);
    }
  }

  /**
    A finalized, unprotected clip is eligible for retention 15 minutes after the last event at the latest, and
    from then on, as long as only expired leases are cleared or leases are given back.
   */
  lemma {:induction false} EligibleWithinTheBound(events: seq<Event>, quiet: seq<Event>, now: int)
    requires Forward(events) && Quiet(quiet)
    requires Run(NEW_CLIP, events).lifecycle == Finalized && !Run(NEW_CLIP, events).protected
    requires now >= LastTime(events) + MAX_LEASE
    ensures Run(Run(NEW_CLIP, events), quiet).RetentionEligible(now) == Ok(true)
  {
    LedgerHolds(events);
    QuietRun(Run(NEW_CLIP, events), quiet);
    assert LastTime(events) >= 0;
  }

  /** Eligibility, once reached, stays until the record changes. */
  lemma EligibilityStays(clip: Clip, quiet: seq<Event>, now: int, later: int)
    requires clip.RetentionEligible(now) == Ok(true) && 0 <= now <= later && Quiet(quiet)
    ensures Run(clip, quiet).RetentionEligible(later) == Ok(true)
  {
    QuietRun(clip, quiet);
  }

  // ---------- lifecycle runs ----------

  /** The lifecycle states a run is in, one per event, from the start. */
  function Trace(events: seq<Event>): (t: seq<Lifecycle>)
    ensures |t| == |events| + 1 && t[|events|] == Run(NEW_CLIP, events).lifecycle
  {
    (if events == [] then [] else Trace(events[..|events| - 1])) + [Run(NEW_CLIP, events).lifecycle]
  }

  /** `waypoints` are met in this order along `trace`. */
  ghost predicate Passes(trace: seq<Lifecycle>, waypoints: seq<Lifecycle>) {
    exists at: seq<nat> :: Marks(trace, waypoints, at)
  }

  predicate Marks(trace: seq<Lifecycle>, waypoints: seq<Lifecycle>, at: seq<nat>) {
    && |at| == |waypoints|
    && (forall i | 0 <= i < |at| :: at[i] < |trace| && trace[at[i]] == waypoints[i])
    && (forall i, j | 0 <= i < j < |at| :: at[i] < at[j])
  }

  function Waypoints(s: Lifecycle): seq<Lifecycle> {
    match s
    case Writing => [Writing]
    case Finalizing => [Writing, Finalizing]
    case MissingSidecar => [Writing, Finalizing]
    case MissingVideo => [Writing, Finalizing]
    case Finalized => [Writing, Finalizing, Finalized]
    case Deleting => [Writing, Finalizing, Finalized, Deleting]
    case Deleted => [Writing, Finalizing, Finalized, Deleting, Deleted]
    case _ => []
  }

  lemma PassesFewer(trace: seq<Lifecycle>, waypoints: seq<Lifecycle>, n: nat)
    requires n <= |waypoints| && Passes(trace, waypoints)
    ensures Passes(trace, waypoints[..n])
  {
    var at: seq<nat> :| Marks(trace, waypoints, at);
    assert Marks(trace, waypoints[..n], at[..n]);
  }

  lemma PassesLonger(trace: seq<Lifecycle>, s: Lifecycle, waypoints: seq<Lifecycle>)
    requires Passes(trace, waypoints)
    ensures Passes(trace + [s], waypoints)
    ensures Passes(trace + [s], waypoints + [s])
  {
    var at: seq<nat> :| Marks(trace, waypoints, at);
    assert Marks(trace + [s], waypoints, at);
    assert Marks(trace + [s], waypoints + [s], at + [|trace|]);
  }

  lemma {:induction false} TraceStep(events: seq<Event>)
    requires events != []
    ensures var p := events[..|events| - 1];
            var (s, t) := (Run(NEW_CLIP, p).lifecycle, Run(NEW_CLIP, events).lifecycle);
            Trace(events) == Trace(p) + [t] && (s == t || t in Successors(s))
  {
  }

  /** A step of the lifecycle keeps the waypoints, shortens them, or adds the state it enters. */
  lemma WaypointStep(s: Lifecycle, t: Lifecycle)
    requires t in Successors(s)
    ensures var (ws, wt) := (Waypoints(s), Waypoints(t));
            (|wt| <= |ws| && wt == ws[..|wt|]) || wt == ws + [t]
  {
  }

  lemma PassesNext(trace: seq<Lifecycle>, s: Lifecycle, t: Lifecycle)
    requires Passes(trace, Waypoints(s)) && (s == t || t in Successors(s))
    ensures Passes(trace + [t], Waypoints(t))
  {
    var (ws, wt) := (Waypoints(s), Waypoints(t));
    PassesLonger(trace, t, ws);
    if s != t {
      WaypointStep(s, t);
      if wt != ws + [t] {
        PassesFewer(trace, ws, |wt|);
        PassesLonger(trace, t, wt);
      }
    }
  }

  /** Where a run stands tells what it has passed through. */
  lemma {:induction false} RunsPassTheirWaypoints(events: seq<Event>)
    ensures Passes(Trace(events), Waypoints(Run(NEW_CLIP, events).lifecycle))
  {
    if events == [] {
      assert Marks(Trace(events), [], []);
    } else {
      var p := events[..|events| - 1];
      RunsPassTheirWaypoints(p);
      TraceStep(events);
      PassesNext(Trace(p), Run(NEW_CLIP, p).lifecycle, Run(NEW_CLIP, events).lifecycle);
    }
  }

  /** A deleted clip was written, finalized and marked for deletion, in this order. */
  lemma {:induction false} DeletedClipsWereFinalized(events: seq<Event>)
    requires Run(NEW_CLIP, events).lifecycle == Deleted
    ensures Passes(Trace(events), [Writing, Finalizing, Finalized, Deleting, Deleted])
  {
    RunsPassTheirWaypoints(events);
  }

  function Stage(s: Lifecycle): nat {
    match s
    case Creating => 0
    case Writing => 1
    case Finalizing => 2
    case _ => 3
  }

  lemma {:induction false} StagesOnlyAdvance(events: seq<Event>, i: nat, j: nat)
    requires i <= j <= |events|
    ensures Stage(Trace(events)[i]) <= Stage(Trace(events)[j])
  {
    if events != [] {
      var n := |events|;
      TraceStep(events);
      if j < n {
        StagesOnlyAdvance(events[..n - 1], i, j);
      } else if i < n {
        StagesOnlyAdvance(events[..n - 1], i, n - 1);
      }
    }
  }

  /** Once a run has left one of the first three states it never returns to it. */
  lemma {:induction false} RecordingStatesAreLeftForGood(events: seq<Event>, i: nat, j: nat, k: nat)
    requires i < j < k <= |events|
    requires Trace(events)[i] in {Creating, Writing, Finalizing} && Trace(events)[j] != Trace(events)[i]
    ensures Stage(Trace(events)[k]) > Stage(Trace(events)[i])
    ensures Trace(events)[k] != Trace(events)[i]
  {
    StagesOnlyAdvance(events, i, j);
    StagesOnlyAdvance(events, j, k);
    OneStatePerStage(Trace(events)[i], Trace(events)[j]);
  }

  lemma OneStatePerStage(s: Lifecycle, t: Lifecycle)
    requires s in {Creating, Writing, Finalizing} && s != t
    ensures Stage(s) != Stage(t)
  {
  }

  /** No lease record exists before a clip was finalized or after it was deleted, and none is ever stored unsafe. */
  lemma {:induction false} LeasesOnlyWhenMeaningful(events: seq<Event>)
    requires Forward(events)
    ensures var c := Run(NEW_CLIP, events);
            c.lifecycle in {Creating, Writing, Finalizing, Deleted} ==> c.lease == None
    ensures var c := Run(NEW_CLIP, events);
            c.lease.Some? ==> var l := c.lease.value; SafeHolder(l.holder) && 0 < l.expires - l.issued <= MAX_LEASE
  {
    if events != [] {
      LeasesOnlyWhenMeaningful(events[..|events| - 1]);
    }
  }
}
