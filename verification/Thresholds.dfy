/** Free-space hysteresis: reclaiming starts below the low threshold and goes on until the high one is reached. */
module Thresholds {
  import opened Common

  datatype Thresholds = Thresholds(start: int, stop: int, emergency: int) {
    predicate Valid() {
      0 <= emergency < start < stop
    }
  }

  datatype Mode = Normal | Reclaiming | Emergency

  function RetentionMode(t: Thresholds, free: int, wasReclaiming: bool): Mode {
    if free < t.emergency then Emergency
    else if wasReclaiming then
      if free < t.stop then Reclaiming else Normal
    else
      if free < t.start then Reclaiming else Normal
  }

  /** One report: the free bytes, and whether a write has just failed for want of space. */
  datatype Report = Report(free: int, noSpace: bool) {
    /** A negative size is an error, unless it is not looked at. */
    predicate Valid() {
      noSpace || free >= 0
    }

    predicate Below(bytes: int) {
      noSpace || free < bytes
    }
  }

  function Next(t: Thresholds, mode: Mode, r: Report): Mode {
    if !r.Valid() then mode
    else if r.noSpace then Emergency
    else RetentionMode(t, r.free, mode != Normal)
  }

  function Run(t: Thresholds, reports: seq<Report>): Mode {
    if reports == [] then Normal
    else Next(t, Run(t, reports[..|reports| - 1]), reports[|reports| - 1])
  }

  /** The reports that were accepted. */
  function Accepted(reports: seq<Report>): seq<Report> {
    if reports == [] then []
    else
      var last := reports[|reports| - 1];
      Accepted(reports[..|reports| - 1]) + (if last.Valid() then [last] else [])
  }

  /** Some report fell below the low threshold, and every later one stayed below the high one. */
  ghost predicate Latched(t: Thresholds, reports: seq<Report>) {
    exists i | 0 <= i < |reports| ::
      reports[i].Below(t.start) && forall j | i < j < |reports| :: reports[j].Below(t.stop)
  }

  lemma LatchedNext(t: Thresholds, reports: seq<Report>, r: Report)
    requires t.Valid()
    ensures Latched(t, reports + [r]) <==> r.Below(t.start) || (r.Below(t.stop) && Latched(t, reports))
  {
    var n := |reports|;
    if r.Below(t.start) {
      assert (reports + [r])[n] == r;
    } else {
      if Latched(t, reports + [r]) {
        var i :| 0 <= i <= n && (reports + [r])[i].Below(t.start)
                 && forall j | i < j <= n :: (reports + [r])[j].Below(t.stop);
        assert (reports + [r])[n] == r;
        assert i < n && reports[i].Below(t.start);
        assert forall j | i < j < n :: (reports + [r])[j] == reports[j];
      }
      if r.Below(t.stop) && Latched(t, reports) {
        var i :| 0 <= i < n && reports[i].Below(t.start) && forall j | i < j < n :: reports[j].Below(t.stop);
        assert (reports + [r])[i].Below(t.start);
        assert forall j | i < j <= n :: (reports + [r])[j].Below(t.stop);
      }
    }
  }

  /**
    The mode is a fact about the whole history: it is not normal exactly if reclaiming was triggered and the high
    threshold was not reached since; and it is an emergency exactly if the last report was one.
   */
  lemma {:induction false} ModeIsHistory(t: Thresholds, reports: seq<Report>)
    requires t.Valid()
    ensures Run(t, reports) != Normal <==> Latched(t, Accepted(reports))
    ensures var a := Accepted(reports);
            Run(t, reports) == Emergency <==> a != [] && a[|a| - 1].Below(t.emergency)
  {
    if reports != [] {
      var p, r := reports[..|reports| - 1], reports[|reports| - 1];
      ModeIsHistory(t, p);
      if r.Valid() {
        LatchedNext(t, Accepted(p), r);
      } else {
        assert Accepted(p) + [] == Accepted(p);
      }
    }
  }

  // ---------- switching costs free-space movement ----------

  function Abs(x: int): int {
    if x < 0 then -x else x
  }

  /** The total variation of the reported free bytes. */
  function Variation(reports: seq<Report>): int {
    if |reports| < 2 then 0
    else
      var n := |reports|;
      Variation(reports[..n - 1]) + Abs(reports[n - 1].free - reports[n - 2].free)
  }

  /** How often a run changes between normal and not normal. */
  function Switches(t: Thresholds, reports: seq<Report>): nat {
    if reports == [] then 0
    else
      var p := reports[..|reports| - 1];
      Switches(t, p) + (if (Run(t, p) == Normal) != (Run(t, reports) == Normal) then 1 else 0)
  }

  /** How many no-space reports found the mode normal although free space was not below the low threshold. */
  function Early(t: Thresholds, reports: seq<Report>): nat {
    if reports == [] then 0
    else
      var (p, r) := (reports[..|reports| - 1], reports[|reports| - 1]);
      Early(t, p) + (if Run(t, p) == Normal && r.noSpace && r.free >= t.start then 1 else 0)
  }

  /** The movement of free space towards the next switch back that is already made, at most the whole band. */
  function Progress(t: Thresholds, mode: Mode, free: int): int {
    var toGo := if mode == Normal then t.stop - free else free - t.start;
    if toGo < 0 then 0 else if toGo > t.stop - t.start then t.stop - t.start else toGo
  }

  /** What the switches so far must have cost: each but the first, with two waived for every early report. */
  function Owed(t: Thresholds, reports: seq<Report>): int {
    (Switches(t, reports) - 1 - 2 * Early(t, reports)) * (t.stop - t.start)
  }

  ghost predicate Paid(t: Thresholds, reports: seq<Report>) {
    || (Switches(t, reports) == 0 && Early(t, reports) == 0 && Run(t, reports) == Normal)
    || (reports != []
        && Variation(reports) >= Owed(t, reports) + Progress(t, Run(t, reports), reports[|reports| - 1].free))
  }

  lemma {:induction false} RunNext(t: Thresholds, p: seq<Report>, r: Report)
    ensures var (mode, next) := (Run(t, p), Next(t, Run(t, p), r));
            && Run(t, p + [r]) == next
            && Switches(t, p + [r]) == Switches(t, p) + (if (mode == Normal) != (next == Normal) then 1 else 0)
            && Early(t, p + [r]) == Early(t, p) + (if mode == Normal && r.noSpace && r.free >= t.start then 1 else 0)
            && Variation(p + [r]) == Variation(p) + (if p == [] then 0 else Abs(r.free - p[|p| - 1].free))
  {
    assert (p + [r])[..|p|] == p;
  }

  /** One more switch, and none or one more early report, change what is owed by one band up or down. */
  lemma {:induction false} OwedNext(t: Thresholds, p: seq<Report>, r: Report)
    ensures var (mode, next, band) := (Run(t, p), Next(t, Run(t, p), r), t.stop - t.start);
            var early := mode == Normal && r.noSpace && r.free >= t.start;
            Owed(t, p + [r])
              == Owed(t, p) + (if early then -band else if (mode == Normal) != (next == Normal) then band else 0)
  {
    RunNext(t, p, r);
    var m, band := Switches(t, p) - 1 - 2 * Early(t, p), t.stop - t.start;
    assert (m + 1) * band == m * band + band;
    assert (m - 1) * band == m * band - band;
  }

  lemma {:induction false} FirstOwed(t: Thresholds, p: seq<Report>)
    requires t.Valid() && Switches(t, p) == 0 && Early(t, p) == 0 && Run(t, p) == Normal
    ensures Owed(t, p) == -(t.stop - t.start)
  {
    assert (0 - 1 - 2 * 0) * (t.stop - t.start) == -(t.stop - t.start);
  }

  lemma {:induction false} PaidNext(t: Thresholds, p: seq<Report>, r: Report)
    requires t.Valid() && Paid(t, p) && Variation(p) >= 0
    ensures Paid(t, p + [r])
  {
    RunNext(t, p, r);
    OwedNext(t, p, r);
    if Switches(t, p) == 0 && Early(t, p) == 0 && Run(t, p) == Normal {
      FirstOwed(t, p);
    }
  }

  lemma {:induction false} VariationGrows(reports: seq<Report>)
    ensures Variation(reports) >= 0
  {
    if |reports| >= 2 {
      VariationGrows(reports[..|reports| - 1]);
    }
  }

  lemma {:induction false} EverySwitchIsPaid(t: Thresholds, reports: seq<Report>)
    requires t.Valid()
    ensures Paid(t, reports)
  {
    if reports != [] {
      var p, r := reports[..|reports| - 1], reports[|reports| - 1];
      EverySwitchIsPaid(t, p);
      VariationGrows(p);
      PaidNext(t, p, r);
      assert p + [r] == reports;
    }
  }

  /**
    Over every run, each switch but the first takes free space across the threshold band, except that a no-space
    report that comes before free space is low waives itself and the switch back.
   */
  lemma {:induction false} SwitchesArePaidFor(t: Thresholds, reports: seq<Report>)
    requires t.Valid()
    ensures (Switches(t, reports) - 1 - 2 * Early(t, reports)) * (t.stop - t.start) <= Variation(reports)
  {
    EverySwitchIsPaid(t, reports);
    VariationGrows(reports);
    if Switches(t, reports) == 0 && Early(t, reports) == 0 && Run(t, reports) == Normal {
      FirstOwed(t, reports);
    }
  }

  lemma {:induction false} NoneEarly(t: Thresholds, reports: seq<Report>)
    requires forall i | 0 <= i < |reports| :: !reports[i].noSpace
    ensures Early(t, reports) == 0
  {
    if reports != [] {
      NoneEarly(t, reports[..|reports| - 1]);
    }
  }

  /** Without no-space reports the controller cannot flap. */
  lemma {:induction false} OrdinarySwitchesArePaidFor(t: Thresholds, reports: seq<Report>)
    requires t.Valid() && forall i | 0 <= i < |reports| :: !reports[i].noSpace
    ensures (Switches(t, reports) - 1) * (t.stop - t.start) <= Variation(reports)
  {
    SwitchesArePaidFor(t, reports);
    NoneEarly(t, reports);
  }

  /** With early reports that bound fails: free space need not move at all for the controller to flap. */
  lemma EarlyReportsFlapForFree(t: Thresholds)
    requires t.Valid()
    ensures var reports := [Report(t.stop, true), Report(t.stop, false), Report(t.stop, true)];
            Variation(reports) == 0 && Switches(t, reports) == 3 && Early(t, reports) == 2
  {
    var r0: seq<Report>, full, done := [], Report(t.stop, true), Report(t.stop, false);
    var r1, r2, r3 := [full], [full, done], [full, done, full];
    assert r1[..0] == r0 && r2[..1] == r1 && r3[..2] == r2;
    assert Run(t, r0) == Normal && Run(t, r1) == Emergency;
    assert Run(t, r2) == Normal;
    assert Run(t, r3) == Emergency;
    assert Switches(t, r1) == 1;
    assert Switches(t, r2) == 2;
    assert Early(t, r1) == 1;
    assert Early(t, r2) == 1;
    assert Variation(r2) == 0;
  }

  class StorageThresholdController {
    const thresholds: Thresholds
    var mode: Mode

    constructor (thresholds: Thresholds, mode: Mode)
      requires thresholds.Valid()
      ensures this.thresholds == thresholds && this.mode == mode
    {
      this.thresholds, this.mode := thresholds, mode;
    }

    /** None stands for the error a negative size raises, which leaves the mode alone. */
    method Evaluate(free: int, noSpace: bool) returns (result: Option<Mode>)
      modifies this
      ensures mode == Next(thresholds, old(mode), Report(free, noSpace))
      ensures result == if Report(free, noSpace).Valid() then Some(mode) else None
    {
      if noSpace {
        mode := Emergency;
        return Some(mode);
      }
      if free < 0 {
        return None;
      }
      mode := RetentionMode(thresholds, free, mode in {Reclaiming, Emergency});
      result := Some(mode);
    }
  }
}
