/**
  The request limiter: per key a deque of accepted times, pruned when the key is checked, in a dictionary bounded
  by forgetting the least recently checked key.
 */
module RateLimiter {
  import opened Common
  import opened OrderedDict
  import opened Lru

  const MAX_KEYS := 128

  datatype Config = Config(limit: nat, window: real, maxKeys: nat) {
    predicate Valid() {
      1 <= limit <= 10_000 && window > 0.0 && 1 <= maxKeys <= MAX_KEYS
    }
  }

  type Deques = Dict<string, seq<real>>

  datatype Verdict = Accepted | Limited | Refused

  predicate ValidCall(key: string, now: real) {
    now >= 0.0 && 1 <= |key| <= 128 && forall i | 0 <= i < |key| :: key[i] < 128 as char
  }

  // ---------- what a check does ----------

  /** The deque without the events at or before `cutoff` at its front. */
  function Pruned(events: seq<real>, cutoff: real): seq<real> {
    if events != [] && events[0] <= cutoff then Pruned(events[1..], cutoff) else events
  }

  /** `deque.append` with a maximum length. */
  function Appended(events: seq<real>, limit: nat, now: real): seq<real> {
    (if |events| >= limit && events != [] then events[1..] else events) + [now]
  }

  /** The key's deque at the moment of counting. */
  function Counted(c: Config, d: Deques, key: string, now: real): seq<real> {
    var events := Pruned(if Get(d, key).Some? then Get(d, key).value else [], now - c.window);
    if events != [] && now < events[|events| - 1] then [] else events
  }

  /** The other keys' deques, after making room for a new key. */
  function Others(c: Config, d: Deques, key: string): Deques {
    if Get(d, key).Some? then Without(d, key)
    else if |d| >= c.maxKeys && d != [] then d[1..]
    else d
  }

  function Check(c: Config, d: Deques, key: string, now: real): (Deques, Verdict) {
    if !ValidCall(key, now) then (d, Refused)
    else
      var events := Counted(c, d, key, now);
      if |events| >= c.limit then (Others(c, d, key) + [(key, events)], Limited)
      else (Others(c, d, key) + [(key, Appended(events, c.limit, now))], Accepted)
  }

  // ---------- the reference: a full history ----------

  datatype Record = Record(key: string, now: real, accepted: bool)

  function KeysOf(h: seq<Record>): (ks: seq<string>) {
    if h == [] then [] else KeysOf(h[..|h| - 1]) + [h[|h| - 1].key]
  }

  /**
    The accepted times that count for `key`: all of them since the key was last crowded out, that is, since
    `maxKeys` other keys came between two of its checks.
   */
  function Held(h: seq<Record>, key: string, maxKeys: nat): seq<real> {
    if h == [] then []
    else
      var (p, last) := (h[..|h| - 1], h[|h| - 1]);
      if last.key == key then Held(p, key, maxKeys) + (if last.accepted then [last.now] else [])
      else if |OthersSince(KeysOf(h), key)| >= maxKeys then []
      else Held(p, key, maxKeys)
  }

  /** All accepted times of `key`. */
  function AcceptedTimes(h: seq<Record>, key: string): seq<real> {
    if h == [] then []
    else
      var last := h[|h| - 1];
      AcceptedTimes(h[..|h| - 1], key) + (if last.key == key && last.accepted then [last.now] else [])
  }

  /** How many times lie in the half-open window (from, to]. */
  function CountIn(times: seq<real>, from: real, to: real): nat {
    if times == [] then 0
    else CountIn(times[..|times| - 1], from, to) + (if from < times[|times| - 1] <= to then 1 else 0)
  }

  /** The limiter run over a sequence of valid checks, and the records it leaves. */
  function Run(c: Config, checks: seq<(string, real)>): (Deques, seq<Record>)
    decreases |checks|
  {
    if checks == [] then ([], [])
    else
      var (d, h) := Run(c, checks[..|checks| - 1]);
      var (key, now) := checks[|checks| - 1];
      var (d1, v) := Check(c, d, key, now);
      (d1, h + [Record(key, now, v.Accepted?)])
  }

  ghost predicate Forward(checks: seq<(string, real)>) {
    && (forall i | 0 <= i < |checks| :: ValidCall(checks[i].0, checks[i].1))
    && (forall i, j | 0 <= i < j < |checks| :: checks[i].1 <= checks[j].1)
  }

  function LastTime(checks: seq<(string, real)>): real {
    if checks == [] then 0.0 else checks[|checks| - 1].1
  }

  // ---------- sorted times ----------

  ghost predicate Sorted(times: seq<real>) {
    forall i, j | 0 <= i < j < |times| :: times[i] <= times[j]
  }

  ghost predicate UpTo(times: seq<real>, now: real) {
    Sorted(times) && forall i | 0 <= i < |times| :: 0.0 <= times[i] <= now
  }

  lemma {:induction false} PrunedCounts(times: seq<real>, cutoff: real, now: real)
    requires UpTo(times, now)
    ensures UpTo(Pruned(times, cutoff), now)
    ensures |Pruned(times, cutoff)| == CountIn(times, cutoff, now)
    ensures forall from, to | from >= cutoff :: CountIn(Pruned(times, cutoff), from, to) == CountIn(times, from, to)
  {
    if times != [] && times[0] <= cutoff {
      PrunedCounts(times[1..], cutoff, now);
      forall from, to | from >= cutoff
        ensures CountIn(times[1..], from, to) == CountIn(times, from, to)
      {
        CountFirst(times, from, to);
      }
    } else {
      AllCounted(times, cutoff, now);
    }
  }

  lemma {:induction false} CountFirst(times: seq<real>, from: real, to: real)
    requires times != []
    ensures CountIn(times, from, to) == CountIn(times[1..], from, to) + (if from < times[0] <= to then 1 else 0)
  {
    if |times| > 1 {
      CountFirst(times[..|times| - 1], from, to);
      assert times[..|times| - 1][1..] == times[1..][..|times| - 2];
    }
  }

  lemma {:induction false} AllCounted(times: seq<real>, from: real, to: real)
    requires forall i | 0 <= i < |times| :: from < times[i] <= to
    ensures CountIn(times, from, to) == |times|
  {
    if times != [] {
      AllCounted(times[..|times| - 1], from, to);
    }
  }

  lemma {:induction false} CountMonotone(times: seq<real>, from: real, from': real, to: real, to': real, now: real)
    requires from <= from' && NoneAfter(times, now) && now <= to
    ensures CountIn(times, from', to') <= CountIn(times, from, to)
  {
    if times != [] {
      CountMonotone(times[..|times| - 1], from, from', to, to', now);
    }
  }

  // ---------- the dictionary is the least-recently-used list ----------

  lemma {:induction false} GetWithout(d: Deques, key: string, k: string)
    requires k != key
    ensures Get(Without(d, key), k) == Get(d, k)
  {
    if d != [] {
      GetWithout(d[1..], key, k);
      var r := Without(d[1..], key);
      if d[0].0 != key {
        assert ([d[0]] + r)[1..] == r;
      } else {
        assert [] + r == r;
      }
    }
  }

  lemma {:induction false} GetAppend(d: Deques, e: (string, seq<real>), k: string)
    ensures Get(d + [e], k) == if Get(d, k).Some? then Get(d, k) else if e.0 == k then Some(e.1) else None
  {
    if d == [] {
      assert d + [e] == [e] && [e][1..] == [];
    } else {
      assert (d + [e])[1..] == d[1..] + [e];
      GetAppend(d[1..], e, k);
    }
  }

  lemma {:induction false} KeysWithout(d: Deques, key: string)
    ensures Keys(Without(d, key)) == Drop(Keys(d), key)
  {
    if d != [] {
      KeysWithout(d[1..], key);
      assert Keys(d)[1..] == Keys(d[1..]);
      var r := Without(d[1..], key);
      if d[0].0 != key {
        KeysAppend([d[0]], r);
      } else {
        assert [] + r == r;
      }
    }
  }

  lemma CheckUses(c: Config, d: Deques, key: string, now: real)
    requires ValidCall(key, now)
    ensures Keys(Check(c, d, key, now).0) == Use(Keys(d), key, c.maxKeys)
  {
    var others := Others(c, d, key);
    var events := if Check(c, d, key, now).1.Limited? then Counted(c, d, key, now)
                  else Appended(Counted(c, d, key, now), c.limit, now);
    KeysAppend(others, [(key, events)]);
    KeysWithout(d, key);
    if d != [] {
      assert Keys(d[1..]) == Keys(d)[1..];
    }
  }

  lemma {:induction false} RunUses(c: Config, checks: seq<(string, real)>)
    requires forall i | 0 <= i < |checks| :: ValidCall(checks[i].0, checks[i].1)
    ensures var (d, h) := Run(c, checks); Keys(d) == AfterUses(KeysOf(h), c.maxKeys)
    ensures |Run(c, checks).1| == |checks|
  {
    if checks != [] {
      var p := checks[..|checks| - 1];
      var (key, now) := checks[|checks| - 1];
      RunUses(c, p);
      var (d, h) := Run(c, p);
      CheckUses(c, d, key, now);
      var h1 := Run(c, checks).1;
      assert h1[..|h1| - 1] == h;
      assert KeysOf(h1)[..|KeysOf(h)|] == KeysOf(h);
    }
  }

  /** Over any run, a checked key is still in the dictionary exactly if fewer than `maxKeys` other keys followed. */
  lemma KeyIsLostExactlyWhenCrowdedOut(c: Config, checks: seq<(string, real)>, key: string)
    requires c.Valid() && forall i | 0 <= i < |checks| :: ValidCall(checks[i].0, checks[i].1)
    requires key in KeysOf(Run(c, checks).1)
    ensures var (d, h) := Run(c, checks);
            key in Keys(d) <==> |OthersSince(KeysOf(h), key)| < c.maxKeys
    ensures |Run(c, checks).0| <= c.maxKeys
  {
    RunUses(c, checks);
    ForgottenExactlyWhenCrowdedOut(KeysOf(Run(c, checks).1), c.maxKeys, key);
    AlwaysRemembers(KeysOf(Run(c, checks).1), c.maxKeys);
  }

  // ---------- the deques hold what the history says ----------

  lemma {:induction false} NeverChecked(h: seq<Record>, key: string, maxKeys: nat)
    requires key !in KeysOf(h)
    ensures Held(h, key, maxKeys) == []
  {
    if h != [] {
      assert KeysOf(h)[|KeysOf(h)| - 1] == h[|h| - 1].key;
      NeverChecked(h[..|h| - 1], key, maxKeys);
    }
  }

  ghost predicate KeyInv(c: Config, d: Deques, h: seq<Record>, now: real, key: string) {
    Matches(c, Get(d, key), Held(h, key, c.maxKeys), now)
  }

  /** The deque found, if any, counts like the times held in every window that can still be asked about. */
  ghost predicate Matches(c: Config, found: Option<seq<real>>, held: seq<real>, now: real) {
    && UpTo(held, now)
    && (found.None? ==> held == [])
    && (found.Some? ==> UpTo(found.value, now) && SameCounts(found.value, held, now - c.window))
  }

  /** Windows that begin at `since` or later cannot tell the two lists apart. */
  ghost predicate SameCounts(a: seq<real>, b: seq<real>, since: real) {
    forall from, to | from >= since :: CountIn(a, from, to) == CountIn(b, from, to)
  }

  lemma SameCountsAppend(a: seq<real>, b: seq<real>, since: real, now: real)
    requires SameCounts(a, b, since)
    ensures SameCounts(a + [now], b + [now], since)
  {
    assert (a + [now])[..|a|] == a && (b + [now])[..|b|] == b;
  }

  lemma UpToAppend(a: seq<real>, now: real)
    requires UpTo(a, now) && now >= 0.0
    ensures UpTo(a + [now], now)
  {
  }

  predicate NoneAfter(times: seq<real>, now: real) {
    times == [] || (times[|times| - 1] <= now && NoneAfter(times[..|times| - 1], now))
  }

  lemma {:induction false} UpToNoneAfter(times: seq<real>, now: real)
    requires UpTo(times, now)
    ensures NoneAfter(times, now)
  {
    if times != [] {
      UpToNoneAfter(times[..|times| - 1], now);
    }
  }

  lemma UpToLater(times: seq<real>, now: real, later: real)
    requires UpTo(times, now) && now <= later
    ensures UpTo(times, later)
  {
  }

  /** What a check counts is what the history holds in the window that ends now. */
  lemma {:induction false} CountedIsHeld(c: Config, d: Deques, h: seq<Record>, t: real, key: string, now: real)
    requires c.Valid() && KeyInv(c, d, h, t, key) && t <= now
    ensures |Counted(c, d, key, now)| == CountIn(Held(h, key, c.maxKeys), now - c.window, now)
    ensures UpTo(Counted(c, d, key, now), now)
    ensures SameCounts(Counted(c, d, key, now), Held(h, key, c.maxKeys), now - c.window)
  {
    if Get(d, key).Some? {
      PrunedCounts(Get(d, key).value, now - c.window, now);
    } else {
      assert Counted(c, d, key, now) == [];
    }
  }

  /** What the check of a valid call leaves in the key's deque. */
  lemma CheckedDeque(c: Config, d: Deques, key: string, now: real)
    requires ValidCall(key, now)
    ensures var (d1, v) := Check(c, d, key, now);
            var counted := Counted(c, d, key, now);
            && v == (if |counted| < c.limit then Accepted else Limited)
            && Get(d1, key) == Some(if v.Accepted? then counted + [now] else counted)
  {
    var counted := Counted(c, d, key, now);
    var events := if |counted| < c.limit then counted + [now] else counted;
    NotAmongOthers(c, d, key);
    GetAppend(Others(c, d, key), (key, events), key);
  }

  lemma AcceptedInv(c: Config, counted: seq<real>, held: seq<real>, now: real)
    requires UpTo(counted, now) && UpTo(held, now) && 0.0 <= now && SameCounts(counted, held, now - c.window)
    ensures UpTo(counted + [now], now) && UpTo(held + [now], now)
    ensures SameCounts(counted + [now], held + [now], now - c.window)
  {
    SameCountsAppend(counted, held, now - c.window, now);
    UpToAppend(counted, now);
    UpToAppend(held, now);
  }

  lemma {:induction false} SameKey(c: Config, d: Deques, h: seq<Record>, t: real, key: string, now: real)
    requires c.Valid() && ValidCall(key, now) && t <= now && KeyInv(c, d, h, t, key)
    ensures var (d1, v) := Check(c, d, key, now);
            KeyInv(c, d1, h + [Record(key, now, v.Accepted?)], now, key)
  {
    var v := Check(c, d, key, now).1;
    var counted, held := Counted(c, d, key, now), Held(h, key, c.maxKeys);
    CheckedDeque(c, d, key, now);
    HeldSame(h, Record(key, now, v.Accepted?), c.maxKeys);
    CountedIsHeld(c, d, h, t, key, now);
    UpToLater(held, t, now);
    if v.Accepted? {
      AcceptedInv(c, counted, held, now);
    } else {
      assert held + [] == held;
    }
  }

  lemma {:induction false} OthersGet(c: Config, d: Deques, key: string, k: string)
    requires Unique(Keys(d)) && k != key
    ensures k in Keys(Others(c, d, key)) ==> Get(Others(c, d, key), k) == Get(d, k)
  {
    GetWithout(d, key, k);
    if d != [] {
      UniqueTail(Keys(d));
      assert Keys(d[1..]) == Keys(d)[1..];
    }
  }

  lemma HeldOther(h: seq<Record>, r: Record, k: string, maxKeys: nat)
    requires k != r.key
    ensures Held(h + [r], k, maxKeys)
         == if |OthersSince(KeysOf(h + [r]), k)| >= maxKeys then [] else Held(h, k, maxKeys)
    ensures KeysOf(h + [r]) == KeysOf(h) + [r.key]
  {
    assert (h + [r])[..|h|] == h;
  }

  lemma MatchesLater(c: Config, found: Option<seq<real>>, held: seq<real>, t: real, now: real)
    requires Matches(c, found, held, t) && t <= now
    ensures Matches(c, found, held, now)
  {
    UpToLater(held, t, now);
    if found.Some? {
      UpToLater(found.value, t, now);
    }
  }

  /** A check of one key leaves another key's deque alone, or drops it. */
  lemma OtherDeque(c: Config, d: Deques, key: string, now: real, k: string)
    requires ValidCall(key, now) && k != key && Unique(Keys(d))
    ensures var d1 := Check(c, d, key, now).0; Get(d1, k) == if k in Keys(d1) then Get(d, k) else None
  {
    var d1, others := Check(c, d, key, now).0, Others(c, d, key);
    GetAppend(others, d1[|d1| - 1], k);
    assert d1 == others + [d1[|d1| - 1]];
    OthersGet(c, d, key, k);
  }

  /** A check of one key leaves what is known about another, or forgets it as the history does. */
  lemma OtherKey(c: Config, d: Deques, h: seq<Record>, t: real, key: string, now: real, k: string)
    requires c.Valid() && ValidCall(key, now) && t <= now && KeyInv(c, d, h, t, k) && k != key && Unique(Keys(d))
    requires var (d1, v) := Check(c, d, key, now);
             var h1 := h + [Record(key, now, v.Accepted?)];
             && (k in Keys(d1) ==> |OthersSince(KeysOf(h1), k)| < c.maxKeys)
             && (k in KeysOf(h1) && k !in Keys(d1) ==> |OthersSince(KeysOf(h1), k)| >= c.maxKeys)
    ensures var (d1, v) := Check(c, d, key, now);
            KeyInv(c, d1, h + [Record(key, now, v.Accepted?)], now, k)
  {
    var (d1, v) := Check(c, d, key, now);
    var r := Record(key, now, v.Accepted?);
    OtherDeque(c, d, key, now, k);
    HeldOther(h, r, k, c.maxKeys);
    MatchesLater(c, Get(d, k), Held(h, k, c.maxKeys), t, now);
    if k !in KeysOf(h + [r]) {
      NeverChecked(h + [r], k, c.maxKeys);
    }
  }

  lemma RunStep(c: Config, checks: seq<(string, real)>)
    requires checks != []
    ensures var p := checks[..|checks| - 1];
            var (key, now) := checks[|checks| - 1];
            var (d, h) := Run(c, p);
            var (d1, v) := Check(c, d, key, now);
            Run(c, checks) == (d1, h + [Record(key, now, v.Accepted?)])
  {
  }

  lemma {:induction false} DequesMatchHistory(c: Config, checks: seq<(string, real)>, k: string)
    requires c.Valid() && Forward(checks)
    ensures var (d, h) := Run(c, checks); KeyInv(c, d, h, LastTime(checks), k)
  {
    if checks != [] {
      var p := checks[..|checks| - 1];
      var (key, now) := checks[|checks| - 1];
      var (d, h) := Run(c, p);
      DequesMatchHistory(c, p, k);
      RunStep(c, checks);
      RunUses(c, p);
      AlwaysRemembers(KeysOf(h), c.maxKeys);
      if k == key {
        SameKey(c, d, h, LastTime(p), key, now);
      } else {
        RunUses(c, checks);
        AlwaysRemembers(KeysOf(Run(c, checks).1), c.maxKeys);
        if k in KeysOf(Run(c, checks).1) {
          ForgottenExactlyWhenCrowdedOut(KeysOf(Run(c, checks).1), c.maxKeys, k);
        }
        OtherKey(c, d, h, LastTime(p), key, now, k);
      }
    }
  }

  lemma NotAmongOthers(c: Config, d: Deques, key: string)
    ensures key !in Keys(Others(c, d, key))
  {
    WithoutElements(d, key);
    if d != [] {
      assert Keys(d[1..]) == Keys(d)[1..];
    }
  }

  /**
    Refinement: on a clock that does not go back, a check is accepted exactly if fewer than `limit` of the key's
    accepted checks lie in the window (now - window, now]; the history counts from when the key was last crowded out.
   */
  lemma AcceptsExactlyBelowTheLimit(c: Config, checks: seq<(string, real)>, key: string, now: real)
    requires c.Valid() && Forward(checks + [(key, now)])
    ensures var (d, h) := Run(c, checks);
            var count := CountIn(Held(h, key, c.maxKeys), now - c.window, now);
            Check(c, d, key, now).1 == if count < c.limit then Accepted else Limited
  {
    var all := checks + [(key, now)];
    assert all[|checks|] == (key, now);
    assert forall i | 0 <= i < |checks| :: all[i] == checks[i];
    DequesMatchHistory(c, checks, key);
    var (d, h) := Run(c, checks);
    CountedIsHeld(c, d, h, LastTime(checks), key, now);
  }

  lemma OneMore(held: seq<real>, from: real, window: real, limit: nat, now: real)
    requires NoneAfter(held, now)
    requires CountIn(held, from, from + window) <= limit && CountIn(held, now - window, now) < limit
    ensures CountIn(held + [now], from, from + window) <= limit
  {
    assert (held + [now])[..|held|] == held;
    if from < now <= from + window {
      CountMonotone(held, now - window, from, now, from + window, now);
    }
  }

  lemma HeldSame(h: seq<Record>, r: Record, maxKeys: nat)
    ensures Held(h + [r], r.key, maxKeys) == Held(h, r.key, maxKeys) + (if r.accepted then [r.now] else [])
  {
    assert (h + [r])[..|h|] == h;
  }

  /** A record keeps the bound of every window if it was accepted below the limit. */
  lemma RecordKeepsWindows(c: Config, h: seq<Record>, k: string, now: real, accepted: bool, key: string, from: real)
    requires CountIn(Held(h, key, c.maxKeys), from, from + c.window) <= c.limit
    requires NoneAfter(Held(h, k, c.maxKeys), now)
    requires accepted ==> CountIn(Held(h, k, c.maxKeys), now - c.window, now) < c.limit
    ensures CountIn(Held(h + [Record(k, now, accepted)], key, c.maxKeys), from, from + c.window) <= c.limit
  {
    var r, held := Record(k, now, accepted), Held(h, key, c.maxKeys);
    if k != key {
      HeldOther(h, r, key, c.maxKeys);
    } else {
      HeldSame(h, r, c.maxKeys);
      if accepted {
        OneMore(held, from, c.window, c.limit, now);
      } else {
        assert held + [] == held;
      }
    }
  }

  function NextRecord(c: Config, p: seq<(string, real)>, key: string, now: real): Record {
    Record(key, now, Check(c, Run(c, p).0, key, now).1.Accepted?)
  }

  lemma NextRecordFacts(c: Config, p: seq<(string, real)>, key: string, now: real)
    requires c.Valid() && Forward(p + [(key, now)]) && Forward(p) && LastTime(p) <= now
    ensures var held := Held(Run(c, p).1, key, c.maxKeys);
            && NoneAfter(held, now)
            && (NextRecord(c, p, key, now).accepted ==> CountIn(held, now - c.window, now) < c.limit)
  {
    AcceptsExactlyBelowTheLimit(c, p, key, now);
    DequesMatchHistory(c, p, key);
    UpToLater(Held(Run(c, p).1, key, c.maxKeys), LastTime(p), now);
    UpToNoneAfter(Held(Run(c, p).1, key, c.maxKeys), now);
  }

  lemma ForwardPrefix(checks: seq<(string, real)>)
    requires Forward(checks) && checks != []
    ensures var p := checks[..|checks| - 1];
            Forward(p) && p + [checks[|checks| - 1]] == checks && LastTime(p) <= checks[|checks| - 1].1
  {
  }

  /**
    No half-open window of the configured length holds more than `limit` of the accepted checks of a key that still
    count, that is, of those since it was last crowded out.
   */
  lemma {:induction false} WindowsHoldAtMostTheLimit(c: Config, checks: seq<(string, real)>, key: string, from: real)
    requires c.Valid() && Forward(checks)
    ensures CountIn(Held(Run(c, checks).1, key, c.maxKeys), from, from + c.window) <= c.limit
    decreases |checks|
  {
    if checks != [] {
      var p := checks[..|checks| - 1];
      ForwardPrefix(checks);
      WindowsHoldAtMostTheLimit(c, p, key, from);
      var (k, now) := checks[|checks| - 1];
      NextRecordFacts(c, p, k, now);
      RecordKeepsWindows(c, Run(c, p).1, k, now, NextRecord(c, p, k, now).accepted, key, from);
      RunStep(c, checks);
    }
  }

  /** While no check of the run crowds the key out, the history that counts is the whole history. */
  lemma {:induction false} UncrowdedHoldsAll(h: seq<Record>, key: string, maxKeys: nat)
    requires maxKeys >= 1
    requires forall i | 0 < i <= |h| :: |OthersSince(KeysOf(h[..i]), key)| < maxKeys
    ensures Held(h, key, maxKeys) == AcceptedTimes(h, key)
  {
    if h != [] {
      var p := h[..|h| - 1];
      assert h[..|h|] == h;
      assert forall i | 0 < i <= |p| :: p[..i] == h[..i];
      UncrowdedHoldsAll(p, key, maxKeys);
    }
  }

  // ---------- all accepted checks of a window, whether or not they still count ----------

  /** How many checks of a key were accepted in the window (from, to]. */
  function AcceptedIn(h: seq<Record>, key: string, from: real, to: real): nat {
    if h == [] then 0
    else
      var last := h[|h| - 1];
      AcceptedIn(h[..|h| - 1], key, from, to) +
          (if last.key == key && last.accepted && from < last.now <= to then 1 else 0)
  }

  /** The other keys checked in the window (from, to]. */
  function OthersIn(h: seq<Record>, key: string, from: real, to: real): set<string> {
    if h == [] then {}
    else
      var last := h[|h| - 1];
      OthersIn(h[..|h| - 1], key, from, to) + (if last.key != key && from < last.now <= to then {last.key} else {})
  }

  predicate InOrder(h: seq<Record>) {
    h == [] || (InOrder(h[..|h| - 1]) && (|h| > 1 ==> h[|h| - 2].now <= h[|h| - 1].now))
  }

  /**
    The history is in order, and at no point of it did the window hold more than `limit` acceptances that counted
    then.
   */
  predicate AlwaysWithin(h: seq<Record>, key: string, max: nat, from: real, to: real, limit: nat) {
    && CountIn(Held(h, key, max), from, to) <= limit
    && (h != [] ==>
          && AlwaysWithin(h[..|h| - 1], key, max, from, to, limit)
          && (|h| > 1 ==> h[|h| - 2].now <= h[|h| - 1].now))
  }

  /** Fewer other keys than places in the window keep all its acceptances below the limit. */
  predicate WindowBound(h: seq<Record>, key: string, max: nat, from: real, to: real, limit: nat) {
    |OthersIn(h, key, from, to)| < max ==> AcceptedIn(h, key, from, to) <= limit
  }

  lemma {:induction false} AlwaysInOrder(h: seq<Record>, key: string, max: nat, from: real, to: real, limit: nat)
    requires AlwaysWithin(h, key, max, from, to, limit)
    ensures InOrder(h)
  {
    if h != [] {
      AlwaysInOrder(h[..|h| - 1], key, max, from, to, limit);
    }
  }

  lemma {:induction false} CountStep(times: seq<real>, now: real, from: real, to: real)
    ensures CountIn(times + [now], from, to)
         == CountIn(times, from, to) + (if from < now <= to then 1 else 0)
  {
    assert (times + [now])[..|times|] == times;
  }

  lemma {:induction false} Subset<T>(a: set<T>, b: set<T>)
    requires a <= b
    ensures |a| <= |b|
  {
    assert b == a + (b - a);
  }

  lemma {:induction false} WindowStep(h: seq<Record>, r: Record, key: string, from: real, to: real)
    ensures AcceptedIn(h + [r], key, from, to)
         == AcceptedIn(h, key, from, to) + (if r.key == key && r.accepted && from < r.now <= to then 1 else 0)
    ensures OthersIn(h + [r], key, from, to)
         == OthersIn(h, key, from, to) + (if r.key != key && from < r.now <= to then {r.key} else {})
  {
    assert (h + [r])[..|h|] == h;
  }

  /** A history with an acceptance in the window has reached the window. */
  lemma {:induction false} WindowReached(h: seq<Record>, key: string, from: real, to: real)
    requires InOrder(h) && AcceptedIn(h, key, from, to) > 0
    ensures h != [] && h[|h| - 1].now > from
  {
    var p := h[..|h| - 1];
    if AcceptedIn(p, key, from, to) > 0 {
      WindowReached(p, key, from, to);
    }
  }

  /** Once a check of the key was accepted in the window, all others since then were checked in the window. */
  lemma {:induction false} OthersSinceAreInWindow(h: seq<Record>, key: string, from: real, to: real)
    requires InOrder(h) && (h != [] ==> h[|h| - 1].now <= to) && AcceptedIn(h, key, from, to) > 0
    ensures OthersSince(KeysOf(h), key) <= OthersIn(h, key, from, to)
  {
    var p, last := h[..|h| - 1], h[|h| - 1];
    assert KeysOf(h)[..|KeysOf(p)|] == KeysOf(p);
    if last.key != key {
      WindowReached(p, key, from, to);
      OthersSinceAreInWindow(p, key, from, to);
    }
  }

  /** One more check of the key counts as it is accepted. */
  lemma {:induction false} OwnCheckCounts(p: seq<Record>, last: Record, max: nat, from: real, to: real)
    requires CountIn(Held(p, last.key, max), from, to) == AcceptedIn(p, last.key, from, to)
    ensures CountIn(Held(p + [last], last.key, max), from, to) == AcceptedIn(p + [last], last.key, from, to)
  {
    var held := Held(p, last.key, max);
    HeldSame(p, last, max);
    WindowStep(p, last, last.key, from, to);
    if last.accepted {
      assert Held(p + [last], last.key, max) == held + [last.now];
      CountStep(held, last.now, from, to);
    } else {
      assert Held(p + [last], last.key, max) == held;
    }
  }

  /** One more check of another key changes nothing, unless it crowds out a key that has nothing in the window. */
  lemma {:induction false} OtherCheckCounts(p: seq<Record>, last: Record, key: string, max: nat, from: real, to: real)
    requires last.key != key && CountIn(Held(p, key, max), from, to) == AcceptedIn(p, key, from, to)
    requires |OthersSince(KeysOf(p + [last]), key)| >= max ==> AcceptedIn(p, key, from, to) == 0
    ensures CountIn(Held(p + [last], key, max), from, to) == AcceptedIn(p + [last], key, from, to)
  {
    HeldOther(p, last, key, max);
    WindowStep(p, last, key, from, to);
  }

  lemma {:induction false} CrowdedOutIsIdle(h: seq<Record>, key: string, max: nat, from: real, to: real)
    requires InOrder(h) && (h != [] ==> h[|h| - 1].now <= to) && |OthersIn(h, key, from, to)| < max
    requires |OthersSince(KeysOf(h), key)| >= max
    ensures AcceptedIn(h, key, from, to) == 0
  {
    if AcceptedIn(h, key, from, to) > 0 {
      OthersSinceAreInWindow(h, key, from, to);
      Subset(OthersSince(KeysOf(h), key), OthersIn(h, key, from, to));
    }
  }

  /** Up to the end of a window with few other keys, every acceptance in it still counts. */
  lemma {:induction false} AcceptedStillCount(h: seq<Record>, key: string, max: nat, from: real, to: real)
    requires InOrder(h) && (h != [] ==> h[|h| - 1].now <= to) && |OthersIn(h, key, from, to)| < max
    ensures CountIn(Held(h, key, max), from, to) == AcceptedIn(h, key, from, to)
  {
    if h != [] {
      var p, last := h[..|h| - 1], h[|h| - 1];
      assert p + [last] == h;
      Subset(OthersIn(p, key, from, to), OthersIn(h, key, from, to));
      AcceptedStillCount(p, key, max, from, to);
      if last.key == key {
        OwnCheckCounts(p, last, max, from, to);
      } else {
        if |OthersSince(KeysOf(h), key)| >= max {
          CrowdedOutIsIdle(h, key, max, from, to);
          WindowStep(p, last, key, from, to);
        }
        OtherCheckCounts(p, last, key, max, from, to);
      }
    }
  }

  lemma {:induction false} FewOthersAreBounded(h: seq<Record>, key: string, max: nat, from: real, to: real, limit: nat)
    requires AlwaysWithin(h, key, max, from, to, limit) && |OthersIn(h, key, from, to)| < max
    ensures AcceptedIn(h, key, from, to) <= limit
  {
    if h != [] {
      if h[|h| - 1].now <= to {
        AlwaysInOrder(h, key, max, from, to, limit);
        AcceptedStillCount(h, key, max, from, to);
      } else {
        FewOthersAreBounded(h[..|h| - 1], key, max, from, to, limit);
      }
    }
  }

  lemma {:induction false} WithinIsBounded(h: seq<Record>, key: string, max: nat, from: real, to: real, limit: nat)
    ensures AlwaysWithin(h, key, max, from, to, limit) ==> WindowBound(h, key, max, from, to, limit)
  {
    if AlwaysWithin(h, key, max, from, to, limit) && |OthersIn(h, key, from, to)| < max {
      FewOthersAreBounded(h, key, max, from, to, limit);
    }
  }

  lemma {:induction false} RunTimes(c: Config, checks: seq<(string, real)>)
    ensures |Run(c, checks).1| == |checks|
    ensures checks != [] ==> Run(c, checks).1[|checks| - 1].now == checks[|checks| - 1].1
  {
    if checks != [] {
      RunTimes(c, checks[..|checks| - 1]);
      RunStep(c, checks);
    }
  }

  lemma {:induction false} RunIsAlwaysWithin(c: Config, checks: seq<(string, real)>, key: string, from: real)
    requires c.Valid() && Forward(checks)
    ensures AlwaysWithin(Run(c, checks).1, key, c.maxKeys, from, from + c.window, c.limit)
  {
    WindowsHoldAtMostTheLimit(c, checks, key, from);
    if checks != [] {
      var p := checks[..|checks| - 1];
      ForwardPrefix(checks);
      RunIsAlwaysWithin(c, p, key, from);
      RunTimes(c, p);
      RunStep(c, checks);
      assert Run(c, checks).1[..|p|] == Run(c, p).1;
    }
  }

  lemma {:induction false} RunWithinIsBounded(c: Config, checks: seq<(string, real)>, key: string, from: real)
    ensures AlwaysWithin(Run(c, checks).1, key, c.maxKeys, from, from + c.window, c.limit)
        ==> WindowBound(Run(c, checks).1, key, c.maxKeys, from, from + c.window, c.limit)
  {
    WithinIsBounded(Run(c, checks).1, key, c.maxKeys, from, from + c.window, c.limit);
  }

  lemma {:induction false} RunIsBounded(c: Config, checks: seq<(string, real)>, key: string, from: real)
    requires c.Valid() && Forward(checks)
    ensures WindowBound(Run(c, checks).1, key, c.maxKeys, from, from + c.window, c.limit)
  {
    RunIsAlwaysWithin(c, checks, key, from);
    RunWithinIsBounded(c, checks, key, from);
  }

  /**
    A window in which fewer other keys are checked than there are places holds at most `limit` accepted checks of a
    key, whatever was checked before or after it.
   */
  lemma {:induction false} WindowsWithFewOthersAreBounded(c: Config, checks: seq<(string, real)>, key: string,
          from: real)
    requires c.Valid() && Forward(checks)
    requires |OthersIn(Run(c, checks).1, key, from, from + c.window)| < c.maxKeys
    ensures AcceptedIn(Run(c, checks).1, key, from, from + c.window) <= c.limit
  {
    RunIsBounded(c, checks, key, from);
  }

  // ---------- with as many others as places the bound fails, whatever the configuration ----------

  /** The record that the history `h` makes of one more check. */
  function Judged(c: Config, h: seq<Record>, key: string, now: real): Record {
    Record(key, now, CountIn(Held(h, key, c.maxKeys), now - c.window, now) < c.limit)
  }

  /** A history of valid checks at one time, each judged by the records before it. */
  predicate AllJudged(c: Config, h: seq<Record>, now: real) {
    h == [] ||
    var p, key := h[..|h| - 1], h[|h| - 1].key;
    AllJudged(c, p, now) && ValidCall(key, now) && h[|h| - 1] == Judged(c, p, key, now)
  }

  function ChecksOf(h: seq<Record>): (checks: seq<(string, real)>)
    ensures |checks| == |h| && forall i | 0 <= i < |h| :: checks[i] == (h[i].key, h[i].now)
  {
    seq(|h|, i requires 0 <= i < |h| => (h[i].key, h[i].now))
  }

  lemma {:induction false} JudgedNext(c: Config, h: seq<Record>, key: string, now: real)
    requires AllJudged(c, h, now) && ValidCall(key, now)
    ensures AllJudged(c, h + [Judged(c, h, key, now)], now)
  {
    assert (h + [Judged(c, h, key, now)])[..|h|] == h;
  }

  lemma {:induction false} JudgedIsForward(c: Config, h: seq<Record>, now: real)
    requires AllJudged(c, h, now)
    ensures forall i | 0 <= i < |h| :: ValidCall(h[i].key, now) && h[i].now == now
    ensures Forward(ChecksOf(h))
  {
    if h != [] {
      var p := h[..|h| - 1];
      JudgedIsForward(c, p, now);
      assert forall i | 0 <= i < |p| :: p[i] == h[i];
    }
  }

  lemma {:induction false} RunAppend(c: Config, checks: seq<(string, real)>, key: string, now: real)
    returns (h: seq<Record>, v: Verdict)
    ensures h == Run(c, checks).1 && v == Check(c, Run(c, checks).0, key, now).1
    ensures Run(c, checks + [(key, now)]).1 == h + [Record(key, now, v.Accepted?)]
  {
    var all := checks + [(key, now)];
    assert all[..|checks|] == checks;
    RunStep(c, all);
    h, v := Run(c, checks).1, Check(c, Run(c, checks).0, key, now).1;
  }

  lemma {:induction false} NextVerdict(c: Config, checks: seq<(string, real)>, key: string, now: real)
    returns (h: seq<Record>, v: Verdict)
    requires c.Valid() && Forward(checks + [(key, now)])
    ensures h == Run(c, checks).1 && v == Check(c, Run(c, checks).0, key, now).1
    ensures v == if CountIn(Held(h, key, c.maxKeys), now - c.window, now) < c.limit then Accepted else Limited
  {
    AcceptsExactlyBelowTheLimit(c, checks, key, now);
    h, v := Run(c, checks).1, Check(c, Run(c, checks).0, key, now).1;
  }

  lemma JudgedSays(c: Config, h: seq<Record>, key: string, now: real, v: Verdict)
    requires v == if CountIn(Held(h, key, c.maxKeys), now - c.window, now) < c.limit then Accepted else Limited
    ensures Judged(c, h, key, now) == Record(key, now, v.Accepted?)
  {
  }

  lemma {:induction false} VerdictJudges(c: Config, checks: seq<(string, real)>, key: string, now: real)
    returns (h: seq<Record>)
    requires c.Valid() && Forward(checks + [(key, now)])
    ensures h == Run(c, checks).1
    ensures Judged(c, h, key, now) == Record(key, now, Check(c, Run(c, checks).0, key, now).1.Accepted?)
  {
    var v: Verdict;
    h, v := NextVerdict(c, checks, key, now);
    JudgedSays(c, h, key, now, v);
  }

  lemma {:induction false} NextJudged(c: Config, checks: seq<(string, real)>, key: string, now: real)
    requires c.Valid() && Forward(checks + [(key, now)])
    ensures Run(c, checks + [(key, now)]).1 == Run(c, checks).1 + [Judged(c, Run(c, checks).1, key, now)]
  {
    var h, v := RunAppend(c, checks, key, now);
    var h1 := VerdictJudges(c, checks, key, now);
  }

  lemma {:induction false} LastJudged(c: Config, h: seq<Record>, now: real)
    requires h != [] && AllJudged(c, h, now)
    ensures var p, key := h[..|h| - 1], h[|h| - 1].key;
            && AllJudged(c, p, now) && h == p + [Judged(c, p, key, now)]
            && ChecksOf(h) == ChecksOf(p) + [(key, now)] && Forward(ChecksOf(h))
  {
    JudgedIsForward(c, h, now);
  }

  /** The limiter leaves exactly such histories. */
  lemma {:induction false} JudgedIsRun(c: Config, h: seq<Record>, now: real)
    requires c.Valid() && AllJudged(c, h, now)
    ensures Run(c, ChecksOf(h)).1 == h
  {
    if h != [] {
      var p, key := h[..|h| - 1], h[|h| - 1].key;
      LastJudged(c, h, now);
      JudgedIsRun(c, p, now);
      NextJudged(c, ChecksOf(p), key, now);
    }
  }

  /** The key had `n` checks accepted, all of which count, and no other key was checked since. */
  predicate OnlyAccepted(h: seq<Record>, key: string, max: nat, from: real, now: real, n: nat) {
    && AcceptedIn(h, key, from, now) == n && OthersIn(h, key, from, now) == {}
    && CountIn(Held(h, key, max), from, now) == n && OthersSince(KeysOf(h), key) == {}
  }

  lemma {:induction false} KeysNext(h: seq<Record>, r: Record)
    ensures KeysOf(h + [r]) == KeysOf(h) + [r.key]
  {
    assert (h + [r])[..|h|] == h;
  }

  lemma {:induction false} OwnAccepted(h: seq<Record>, key: string, max: nat, from: real, now: real, n: nat)
    requires from < now && OnlyAccepted(h, key, max, from, now, n)
    ensures OnlyAccepted(h + [Record(key, now, true)], key, max, from, now, n + 1)
  {
    var r := Record(key, now, true);
    WindowStep(h, r, key, from, now);
    HeldSame(h, r, max);
    CountStep(Held(h, key, max), now, from, now);
    KeysNext(h, r);
    OthersNext(KeysOf(h), key, key);
  }

  lemma {:induction false} AskedOnceMore(c: Config, p: seq<Record>, key: string, now: real, n: nat)
    requires c.Valid() && n < c.limit && OnlyAccepted(p, key, c.maxKeys, now - c.window, now, n)
    ensures OnlyAccepted(p + [Judged(c, p, key, now)], key, c.maxKeys, now - c.window, now, n + 1)
  {
    OwnAccepted(p, key, c.maxKeys, now - c.window, now, n);
  }

  lemma {:induction false} AskedUpTo(c: Config, key: string, now: real, n: nat) returns (h: seq<Record>)
    requires c.Valid() && ValidCall(key, now) && n <= c.limit
    ensures AllJudged(c, h, now) && OnlyAccepted(h, key, c.maxKeys, now - c.window, now, n)
  {
    if n == 0 {
      h := [];
    } else {
      var p := AskedUpTo(c, key, now, n - 1);
      JudgedNext(c, p, key, now);
      AskedOnceMore(c, p, key, now, n - 1);
      h := p + [Judged(c, p, key, now)];
    }
  }

  /** The `i`-th other name, in a letter that the key does not begin with. */
  function Other(key: string, i: nat): string
    requires key != []
  {
    seq(i + 1, _ => if key[0] == 'a' then 'b' else 'a')
  }

  function Crowd(key: string, n: nat): set<string>
    requires key != []
  {
    if n == 0 then {} else Crowd(key, n - 1) + {Other(key, n - 1)}
  }

  lemma {:induction false} CrowdSize(key: string, n: nat)
    requires key != []
    ensures |Crowd(key, n)| == n && forall x | x in Crowd(key, n) :: |x| <= n
  {
    if n > 0 {
      CrowdSize(key, n - 1);
    }
  }

  lemma OtherIsAnother(key: string, now: real, n: nat)
    requires ValidCall(key, now) && 1 <= n <= MAX_KEYS
    ensures ValidCall(Other(key, n - 1), now) && Other(key, n - 1) != key
    ensures Crowd(key, n) == Crowd(key, n - 1) + {Other(key, n - 1)}
  {
    assert Other(key, n - 1)[0] != key[0];
  }

  /** The key had `n` checks accepted, and `others` were checked since then in the window. */
  predicate Flooded(h: seq<Record>, key: string, from: real, now: real, n: nat, others: set<string>) {
    && AcceptedIn(h, key, from, now) == n
    && OthersIn(h, key, from, now) == others && OthersSince(KeysOf(h), key) == others
  }

  lemma NotFlooded(h: seq<Record>, key: string, max: nat, from: real, now: real, n: nat)
    requires key != [] && OnlyAccepted(h, key, max, from, now, n)
    ensures Flooded(h, key, from, now, n, Crowd(key, 0))
  {
  }

  lemma {:induction false} OtherFloods(h: seq<Record>, r: Record, key: string, from: real, n: nat, others: set<string>)
    requires from < r.now && r.key != key && Flooded(h, key, from, r.now, n, others)
    ensures Flooded(h + [r], key, from, r.now, n, others + {r.key})
  {
    WindowStep(h, r, key, from, r.now);
    KeysNext(h, r);
    OthersNext(KeysOf(h), r.key, key);
  }

  lemma {:induction false} FloodedOnceMore(c: Config, p: seq<Record>, key: string, now: real, others: set<string>,
        other: string, more: set<string>) returns (h: seq<Record>)
    requires c.Valid() && ValidCall(other, now) && other != key && more == others + {other}
    requires AllJudged(c, p, now) && Flooded(p, key, now - c.window, now, c.limit, others)
    ensures AllJudged(c, h, now) && Flooded(h, key, now - c.window, now, c.limit, more)
    ensures h != [] && h[|h| - 1].key != key
  {
    JudgedNext(c, p, other, now);
    OtherFloods(p, Judged(c, p, other, now), key, now - c.window, c.limit, others);
    h := p + [Judged(c, p, other, now)];
  }

  lemma {:induction false} FloodedBy(c: Config, key: string, now: real, n: nat) returns (h: seq<Record>)
    requires c.Valid() && ValidCall(key, now) && n <= MAX_KEYS
    ensures AllJudged(c, h, now) && Flooded(h, key, now - c.window, now, c.limit, Crowd(key, n))
    ensures n > 0 ==> h != [] && h[|h| - 1].key != key
  {
    if n == 0 {
      h := AskedUpTo(c, key, now, c.limit);
      NotFlooded(h, key, c.maxKeys, now - c.window, now, c.limit);
    } else {
      var p := FloodedBy(c, key, now, n - 1);
      OtherIsAnother(key, now, n);
      h := FloodedOnceMore(c, p, key, now, Crowd(key, n - 1), Other(key, n - 1), Crowd(key, n));
    }
  }

  lemma {:induction false} FloodedHoldsNothing(h: seq<Record>, key: string, max: nat, from: real, now: real, n: nat)
    requires key != [] && h != [] && h[|h| - 1].key != key && Flooded(h, key, from, now, n, Crowd(key, max))
    ensures Held(h, key, max) == []
  {
    CrowdSize(key, max);
  }

  /** As many other keys in the window as there are places, and one acceptance of the key too many. */
  predicate OverTheLimit(c: Config, h: seq<Record>, key: string, from: real, to: real) {
    |OthersIn(h, key, from, to)| == c.maxKeys && AcceptedIn(h, key, from, to) == c.limit + 1
  }

  lemma {:induction false} CrowdedOut(c: Config, key: string, now: real) returns (h: seq<Record>)
    requires c.Valid() && ValidCall(key, now)
    ensures AllJudged(c, h, now) && OverTheLimit(c, h, key, now - c.window, now)
  {
    var p := FloodedBy(c, key, now, c.maxKeys);
    FloodedHoldsNothing(p, key, c.maxKeys, now - c.window, now, c.limit);
    JudgedNext(c, p, key, now);
    WindowStep(p, Record(key, now, true), key, now - c.window, now);
    CrowdSize(key, c.maxKeys);
    h := p + [Judged(c, p, key, now)];
  }

  /**
    Whatever the configuration, the key and the time, with as many others as places a window can hold one
    acceptance of the key too many.
   */
  lemma {:induction false} CrowdingBreaksTheBound(c: Config, key: string, now: real)
    returns (checks: seq<(string, real)>)
    requires c.Valid() && ValidCall(key, now)
    ensures Forward(checks) && OverTheLimit(c, Run(c, checks).1, key, now - c.window, now)
  {
    var h := CrowdedOut(c, key, now);
    checks := ChecksOf(h);
    JudgedIsForward(c, h, now);
    JudgedIsRun(c, h, now);
  }

  /** At most `n` other keys in a window keep the key's acceptances in it within the limit. */
  predicate KeptBy(h: seq<Record>, key: string, from: real, to: real, limit: nat, n: nat) {
    |OthersIn(h, key, from, to)| <= n ==> AcceptedIn(h, key, from, to) <= limit
  }

  /** No forward run with at most `n` other keys in a window has more acceptances of the key in it than the limit. */
  ghost predicate BoundedBy(c: Config, key: string, n: nat) {
    forall checks, from, to | Forward(checks) && to == from + c.window ::
      KeptBy(Run(c, checks).1, key, from, to, c.limit, n)
  }

  lemma {:induction false} FewerAreKept(h: seq<Record>, key: string, from: real, to: real, c: Config, n: nat)
    requires n < c.maxKeys
    ensures WindowBound(h, key, c.maxKeys, from, to, c.limit) ==> KeptBy(h, key, from, to, c.limit, n)
  {
  }

  lemma {:induction false} RunIsKept(c: Config, checks: seq<(string, real)>, key: string, from: real, to: real, n: nat)
    requires c.Valid() && n < c.maxKeys
    ensures Forward(checks) && to == from + c.window ==> KeptBy(Run(c, checks).1, key, from, to, c.limit, n)
  {
    if Forward(checks) && to == from + c.window {
      RunIsBounded(c, checks, key, from);
      FewerAreKept(Run(c, checks).1, key, from, to, c, n);
    }
  }

  lemma {:induction false} BoundedBelowThePlaces(c: Config, key: string, n: nat)
    requires c.Valid() && n < c.maxKeys
    ensures BoundedBy(c, key, n)
  {
    forall checks, from, to | Forward(checks) && to == from + c.window
      ensures KeptBy(Run(c, checks).1, key, from, to, c.limit, n)
    {
      RunIsKept(c, checks, key, from, to, n);
    }
  }

  lemma {:induction false} NotKept(c: Config, h: seq<Record>, key: string, from: real, to: real, n: nat)
    requires c.maxKeys <= n
    ensures OverTheLimit(c, h, key, from, to) ==> !KeptBy(h, key, from, to, c.limit, n)
  {
  }

  lemma {:induction false} NotBounded(c: Config, checks: seq<(string, real)>, key: string, to: real, n: nat)
    ensures Forward(checks) && !KeptBy(Run(c, checks).1, key, to - c.window, to, c.limit, n) ==> !BoundedBy(c, key, n)
  {
  }

  lemma {:induction false} UnboundedFromThePlacesOn(c: Config, key: string, now: real, n: nat)
    requires c.Valid() && ValidCall(key, now) && c.maxKeys <= n
    ensures !BoundedBy(c, key, n)
  {
    var checks := CrowdingBreaksTheBound(c, key, now);
    NotKept(c, Run(c, checks).1, key, now - c.window, now, n);
    NotBounded(c, checks, key, now, n);
  }

  /** The number of other keys that every window can bear is the number of places less one, for every key. */
  lemma {:induction false} BoundedExactlyBelowThePlaces(c: Config, key: string, n: nat)
    requires c.Valid() && ValidCall(key, 0.0)
    ensures BoundedBy(c, key, n) <==> n < c.maxKeys
  {
    if n < c.maxKeys {
      BoundedBelowThePlaces(c, key, n);
    } else {
      UnboundedFromThePlacesOn(c, key, 0.0, n);
    }
  }

  /** A clock that goes back never locks a key out. */
  lemma {:induction false} RegressionIsAccepted(c: Config, d: Deques, key: string, now: real)
    requires c.Valid() && ValidCall(key, now)
    requires Get(d, key).Some? && Get(d, key).value != [] && now < Get(d, key).value[|Get(d, key).value| - 1]
    ensures Check(c, d, key, now).1 == Accepted
    ensures Get(Check(c, d, key, now).0, key) == Some([now])
  {
    PrunedKeepsLast(Get(d, key).value, now - c.window);
    assert Counted(c, d, key, now) == [] && [] + [now] == [now];
    CheckedDeque(c, d, key, now);
  }

  lemma {:induction false} PrunedKeepsLast(times: seq<real>, cutoff: real)
    ensures var r := Pruned(times, cutoff);
            r != [] ==> times != [] && r[|r| - 1] == times[|times| - 1]
  {
    if times != [] && times[0] <= cutoff {
      PrunedKeepsLast(times[1..], cutoff);
    }
  }

  // ---------- the limiter as the source writes it ----------

  class FixedWindowRateLimiter {
    const c: Config
    var events: Deques

    constructor (c: Config)
      requires c.Valid()
      ensures this.c == c && events == []
    {
      this.c := c;
      events := [];
    }

    method CheckKey(key: string, now: real) returns (verdict: Verdict)
      requires c.Valid()
      modifies this
      ensures (events, verdict) == Check(c, old(events), key, now)
    {
      if !ValidCall(key, now) {
        return Refused;
      }
      ghost var d := events;
      var found := Get(events, key);
      var queue: seq<real>;
      if found.None? {
        if |events| >= c.maxKeys {
          events := events[1..];
        }
        queue := [];
      } else {
        events := Without(events, key);
        queue := found.value;
      }
      assert events == Others(c, d, key);
      var cutoff := now - c.window;
      while queue != [] && queue[0] <= cutoff
        invariant Pruned(queue, cutoff) == Pruned(if Get(d, key).Some? then Get(d, key).value else [], cutoff)
      {
        queue := queue[1..];
      }
      if queue != [] && now < queue[|queue| - 1] {
        queue := [];
      }
      if |queue| >= c.limit {
        events := events + [(key, queue)];
        return Limited;
      }
      queue := Appended(queue, c.limit, now);
      events := events + [(key, queue)];
      return Accepted;
    }
  }
}
