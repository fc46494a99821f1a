/**
  The bounded session store: a dictionary in least-recently-used order whose sessions are checked for expiry only
  when they are looked up or when a new session is created.  Times are reals on the caller's monotonic clock.
 */
module Sessions {
  import opened Common
  import opened OrderedDict

  datatype Session = Session(token: string, csrf: string, created: real, lastSeen: real, reauthenticated: real)

  const MAX_SESSIONS := 32
  const TOKEN_TRIES := 4

  datatype Config = Config(idle: real, absolute: real, reauthWindow: real, max: nat) {
    /** What the constructor accepts. */
    predicate Valid() {
      idle > 0.0 && absolute > 0.0 && reauthWindow >= 0.0 && 1 <= max <= MAX_SESSIONS
    }
  }

  type Store = Dict<string, Session>

  predicate Expired(c: Config, s: Session, now: real) {
    || now - s.lastSeen >= c.idle
    || now - s.created >= c.absolute
    || now < s.created
  }

  /** The sessions that are not expired at `now`, in the same order. */
  function Live(c: Config, d: Store, now: real): (r: Store)
    ensures |r| <= |d|
  {
    if d == [] then []
    else (if Expired(c, d[0].1, now) then [] else [d[0]]) + Live(c, d[1..], now)
  }

  // ---------- what the store's operations do ----------

  predicate TokenChar(ch: char) {
    'A' <= ch <= 'Z' || 'a' <= ch <= 'z' || '0' <= ch <= '9' || ch == '_' || ch == '-'
  }

  predicate Acceptable(candidate: string, taken: Store, exclude: set<string>) {
    && 32 <= |candidate| <= 256
    && (forall i | 0 <= i < |candidate| :: TokenChar(candidate[i]))
    && candidate !in Keys(taken)
    && candidate !in exclude
  }

  /** The first acceptable one of the strings the token factory returns. */
  function PickToken(draws: seq<string>, taken: Store, exclude: set<string>): Option<string> {
    if draws == [] then None
    else if Acceptable(draws[0], taken, exclude) then Some(draws[0])
    else PickToken(draws[1..], taken, exclude)
  }

  datatype Answer =
    | Created(session: Session)
    | NoToken
    | Authenticated(session: Session)
    | Denied
    | InvalidTime
    | Silent

  /** A new session in a store without expired ones; a full store first loses its oldest entry. */
  function Added(c: Config, live: Store, now: real, draws: seq<string>, csrfDraws: seq<string>): (Store, Answer) {
    var room := if |live| >= c.max && live != [] then live[1..] else live;
    match PickToken(draws, room, {})
    case None => (room, NoToken)
    case Some(token) =>
      match PickToken(csrfDraws, room, {token})
      case None => (room, NoToken)
      case Some(csrf) =>
        var s := Session(token, csrf, now, now, now);
        (Put(room, token, s), Created(s))
  }

  function Touched(s: Session, now: real): Session {
    s.(lastSeen := now)
  }

  function Authentication(c: Config, d: Store, token: string, now: real): (Store, Answer) {
    if token == "" || |token| > 256 then (d, Denied)
    else
      match Get(d, token)
      case None => (d, Denied)
      case Some(s) =>
        if Expired(c, s, now) then (Without(d, token), Denied)
        else (PutLast(d, token, Touched(s, now)), Authenticated(Touched(s, now)))
  }

  function Reauthentication(c: Config, d: Store, token: string, now: real): (Store, Answer) {
    var (d1, a) := Authentication(c, d, token, now);
    if a.Denied? then (d1, a)
    else
      var s := a.session.(reauthenticated := now);
      (Put(d1, token, s), Authenticated(s))
  }

  /** Calls on the store; `Tick` is a moment at which nothing is called. */
  datatype Event =
    | Create(now: real, draws: seq<string>, csrfDraws: seq<string>)
    | Authenticate(now: real, token: string)
    | Reauthenticate(now: real, token: string)
    | Revoke(now: real, token: string)
    | Prune(now: real)
    | Tick(now: real)

  /** The store of the source. */
  function Step(c: Config, d: Store, e: Event): (Store, Answer) {
    if e.now < 0.0 && !e.Revoke? && !e.Tick? then (d, InvalidTime)
    else
      match e
      case Create(now, draws, csrfDraws) => Added(c, Live(c, d, now), now, draws, csrfDraws)
      case Authenticate(now, token) => Authentication(c, d, token, now)
      case Reauthenticate(now, token) => Reauthentication(c, d, token, now)
      case Revoke(_, token) => (Without(d, token), Silent)
      case Prune(now) => (Live(c, d, now), Silent)
      case Tick(_) => (d, Silent)
  }

  // ---------- the reference: a store that never holds an expired session ----------

  /** Every moment first drops what has expired, so lookups need no expiry check. */
  function EagerStep(c: Config, d: Store, e: Event): (Store, Answer) {
    var live := Live(c, d, e.now);
    match e
    case Create(now, draws, csrfDraws) => Added(c, live, now, draws, csrfDraws)
    case Authenticate(now, token) => EagerTouch(live, token, now, false)
    case Reauthenticate(now, token) => EagerTouch(live, token, now, true)
    case Revoke(_, token) => (Without(live, token), Silent)
    case Prune(_) => (live, Silent)
    case Tick(_) => (live, Silent)
  }

  function EagerTouch(live: Store, token: string, now: real, again: bool): (Store, Answer) {
    match Get(live, token)
    case None => (live, Denied)
    case Some(s) =>
      var t := s.(lastSeen := now, reauthenticated := if again then now else s.reauthenticated);
      (Without(live, token) + [(token, t)], Authenticated(t))
  }

  function Run(c: Config, d: Store, events: seq<Event>): (Store, seq<Answer>)
    decreases |events|
  {
    if events == [] then (d, [])
    else
      var (d1, a) := Step(c, d, events[0]);
      var (d2, rest) := Run(c, d1, events[1..]);
      (d2, [a] + rest)
  }

  function EagerRun(c: Config, d: Store, events: seq<Event>): (Store, seq<Answer>)
    decreases |events|
  {
    if events == [] then (d, [])
    else
      var (d1, a) := EagerStep(c, d, events[0]);
      var (d2, rest) := EagerRun(c, d1, events[1..]);
      (d2, [a] + rest)
  }

  /** The clock does not go back. */
  predicate Forward(events: seq<Event>, from: real) {
    events == [] || (from <= events[0].now && Forward(events[1..], events[0].now))
  }

  function LastTime(events: seq<Event>, from: real): real {
    if events == [] then from else LastTime(events[1..], events[0].now)
  }

  // ---------- the invariant ----------

  predicate Sane(e: (string, Session), now: real) {
    && e.0 == e.1.token
    && 1 <= |e.0| <= 256
    && 0.0 <= e.1.created <= e.1.reauthenticated <= e.1.lastSeen <= now
  }

  /** The dictionary's order is the order of last use, and every session's times are in order. */
  ghost predicate Good(c: Config, d: Store, now: real) {
    && |d| <= c.max
    && Unique(Keys(d))
    && (forall i | 0 <= i < |d| :: Sane(d[i], now))
    && ByLastUse(d)
  }

  ghost predicate ByLastUse(d: Store) {
    forall i, j | 0 <= i < j < |d| :: d[i].1.lastSeen <= d[j].1.lastSeen
  }

  lemma {:induction false} LiveElements(c: Config, d: Store, now: real)
    ensures forall e :: e in Live(c, d, now) <==> e in d && !Expired(c, e.1, now)
  {
    if d != [] {
      LiveElements(c, d[1..], now);
      assert d == [d[0]] + d[1..];
    }
  }

  // Keys stay distinct and the order of last use is kept when entries are dropped.

  lemma KeysTail(d: Store)
    requires d != []
    ensures Keys(d[1..]) == Keys(d)[1..] && Keys(d)[0] == d[0].0
  {
  }

  lemma KeysBelow(d: Store, r: Store)
    requires d != [] && Unique(Keys(d)) && forall e :: e in r ==> e in d[1..]
    ensures d[0].0 !in Keys(r)
  {
    KeysTail(d);
    UniqueTail(Keys(d));
    forall i | 0 <= i < |r|
      ensures Keys(r)[i] in Keys(d[1..])
    {
      assert r[i] in d[1..];
      var j :| 0 <= j < |d| - 1 && d[1..][j] == r[i];
      assert Keys(d[1..])[j] == Keys(r)[i];
    }
  }

  lemma TimesBelow(d: Store, r: Store)
    requires d != [] && ByLastUse(d) && forall e :: e in r ==> e in d[1..]
    ensures forall i | 0 <= i < |r| :: d[0].1.lastSeen <= r[i].1.lastSeen
  {
    forall i | 0 <= i < |r|
      ensures d[0].1.lastSeen <= r[i].1.lastSeen
    {
      assert r[i] in d[1..];
      var j :| 0 <= j < |d| - 1 && d[1..][j] == r[i];
      assert d[j + 1] == r[i];
    }
  }

  lemma {:induction false} LiveUnique(c: Config, d: Store, now: real)
    requires Unique(Keys(d))
    ensures Unique(Keys(Live(c, d, now)))
  {
    if d != [] {
      KeysTail(d);
      UniqueTail(Keys(d));
      LiveUnique(c, d[1..], now);
      LiveElements(c, d[1..], now);
      KeysBelow(d, Live(c, d[1..], now));
      UniqueEntries(Live(c, d[1..], now), d[0]);
    }
  }

  lemma {:induction false} LiveByLastUse(c: Config, d: Store, now: real)
    requires ByLastUse(d)
    ensures ByLastUse(Live(c, d, now))
  {
    if d != [] {
      LiveByLastUse(c, d[1..], now);
      LiveElements(c, d[1..], now);
      TimesBelow(d, Live(c, d[1..], now));
      Prepend(d[0], Live(c, d[1..], now));
    }
  }

  lemma {:induction false} WithoutUnique(d: Store, token: string)
    requires Unique(Keys(d))
    ensures Unique(Keys(Without(d, token)))
  {
    if d != [] {
      KeysTail(d);
      UniqueTail(Keys(d));
      WithoutUnique(d[1..], token);
      WithoutElements(d[1..], token);
      KeysBelow(d, Without(d[1..], token));
      UniqueEntries(Without(d[1..], token), d[0]);
    }
  }

  lemma {:induction false} WithoutByLastUse(d: Store, token: string)
    requires ByLastUse(d)
    ensures ByLastUse(Without(d, token))
  {
    if d != [] {
      WithoutByLastUse(d[1..], token);
      WithoutElements(d[1..], token);
      TimesBelow(d, Without(d[1..], token));
      Prepend(d[0], Without(d[1..], token));
    }
  }

  lemma Prepend(e: (string, Session), r: Store)
    requires ByLastUse(r)
    requires forall i | 0 <= i < |r| :: e.1.lastSeen <= r[i].1.lastSeen
    ensures ByLastUse([e] + r)
  {
  }

  lemma Extend(r: Store, e: (string, Session))
    requires ByLastUse(r)
    requires forall i | 0 <= i < |r| :: r[i].1.lastSeen <= e.1.lastSeen
    ensures ByLastUse(r + [e])
  {
  }

  lemma SaneElements(c: Config, d: Store, now: real, r: Store, later: real)
    requires Good(c, d, now) && now <= later && forall e :: e in r ==> e in d
    ensures forall i | 0 <= i < |r| :: Sane(r[i], later)
  {
    forall i | 0 <= i < |r|
      ensures Sane(r[i], later)
    {
      assert r[i] in d;
    }
  }

  lemma {:induction false} LiveGood(c: Config, d: Store, now: real, later: real)
    requires Good(c, d, now) && now <= later
    ensures Good(c, Live(c, d, later), later)
  {
    LiveUnique(c, d, later);
    LiveByLastUse(c, d, later);
    LiveElements(c, d, later);
    SaneElements(c, d, now, Live(c, d, later), later);
  }

  lemma {:induction false} WithoutGood(c: Config, d: Store, token: string, now: real, later: real)
    requires Good(c, d, now) && now <= later
    ensures Good(c, Without(d, token), later)
    ensures token in Keys(d) ==> |Without(d, token)| < |d|
  {
    WithoutUnique(d, token);
    WithoutByLastUse(d, token);
    WithoutElements(d, token);
    SaneElements(c, d, now, Without(d, token), later);
    if token in Keys(d) {
      Shrinks(d, token);
    }
  }

  lemma {:induction false} Shrinks(d: Store, token: string)
    requires token in Keys(d)
    ensures |Without(d, token)| < |d|
  {
    if d[0].0 != token {
      assert Keys(d)[0] != token;
      Shrinks(d[1..], token);
    }
  }

  /** A session used now goes to the end of the dictionary. */
  lemma {:induction false} TouchGood(c: Config, d: Store, s: Session, now: real, later: real)
    requires Good(c, d, now) && now <= later && s.lastSeen == later
    requires Sane((s.token, s), later) && (s.token in Keys(d) || |d| < c.max)
    ensures Good(c, PutLast(d, s.token, s), later)
  {
    WithoutGood(c, d, s.token, now, later);
    WithoutElements(d, s.token);
    if s.token !in Keys(d) {
      assert Without(d, s.token) == d;
    }
    Extend(Without(d, s.token), (s.token, s));
    UniqueEntries(Without(d, s.token), (s.token, s));
  }

  // ---------- filtering commutes with the operations ----------

  lemma LiveCons(c: Config, e: (string, Session), r: Store, now: real)
    ensures Live(c, [e] + r, now) == if Expired(c, e.1, now) then Live(c, r, now) else [e] + Live(c, r, now)
  {
    assert ([e] + r)[1..] == r;
  }

  lemma WithoutCons(e: (string, Session), r: Store, token: string)
    ensures Without([e] + r, token) == if e.0 == token then Without(r, token) else [e] + Without(r, token)
  {
    assert ([e] + r)[1..] == r;
  }

  lemma {:induction false} LiveWithout(c: Config, d: Store, token: string, now: real)
    ensures Live(c, Without(d, token), now) == Without(Live(c, d, now), token)
  {
    if d != [] {
      var e, r := d[0], d[1..];
      assert d == [e] + r;
      LiveWithout(c, r, token, now);
      LiveCons(c, e, r, now);
      WithoutCons(e, r, token);
      LiveCons(c, e, Without(r, token), now);
      WithoutCons(e, Live(c, r, now), token);
    }
  }

  lemma {:induction false} LiveAppend(c: Config, d: Store, e: (string, Session), now: real)
    ensures Live(c, d + [e], now) == Live(c, d, now) + (if Expired(c, e.1, now) then [] else [e])
  {
    if d == [] {
      assert d + [e] == [e];
    } else {
      assert (d + [e])[1..] == d[1..] + [e];
      LiveAppend(c, d[1..], e, now);
    }
  }

  lemma {:induction false} AllLive(c: Config, d: Store, now: real)
    requires forall i | 0 <= i < |d| :: !Expired(c, d[i].1, now)
    ensures Live(c, d, now) == d
  {
    if d != [] {
      AllLive(c, d[1..], now);
    }
  }

  /** What is live later was live before: dropping expired sessions early makes no difference. */
  lemma {:induction false} LiveLater(c: Config, d: Store, now: real, later: real)
    requires now <= later && forall i | 0 <= i < |d| :: d[i].1.created <= now
    ensures Live(c, Live(c, d, now), later) == Live(c, d, later)
  {
    if d != [] {
      LiveLater(c, d[1..], now, later);
      var r := Live(c, d[1..], now);
      if !Expired(c, d[0].1, now) {
        assert ([d[0]] + r)[1..] == r;
      } else {
        assert [] + r == r;
      }
    }
  }

  lemma {:induction false} LiveGet(c: Config, d: Store, token: string, now: real)
    requires Unique(Keys(d))
    ensures Get(Live(c, d, now), token)
         == if Get(d, token).Some? && !Expired(c, Get(d, token).value, now) then Get(d, token) else None
  {
    if d != [] {
      KeysTail(d);
      UniqueTail(Keys(d));
      LiveGet(c, d[1..], token, now);
      var r := Live(c, d[1..], now);
      if !Expired(c, d[0].1, now) {
        assert ([d[0]] + r)[1..] == r;
      } else {
        assert [] + r == r;
        if d[0].0 == token {
          assert token !in Keys(d[1..]);
        }
      }
    }
  }

  // ---------- every call keeps the invariant and agrees with the reference ----------

  lemma PickedIsFresh(draws: seq<string>, taken: Store, exclude: set<string>)
    ensures var t := PickToken(draws, taken, exclude);
            t.Some? ==> 32 <= |t.value| <= 256 && t.value !in Keys(taken) && t.value !in exclude
  {
  }

  lemma DropFirst(c: Config, d: Store, now: real)
    requires Good(c, d, now) && d != []
    ensures Good(c, d[1..], now)
  {
    KeysTail(d);
    UniqueTail(Keys(d));
  }

  lemma {:induction false} AddedGood(c: Config, live: Store, now: real, draws: seq<string>, csrfDraws: seq<string>)
    requires c.Valid() && Good(c, live, now) && 0.0 <= now
    ensures Good(c, Added(c, live, now, draws, csrfDraws).0, now)
  {
    var room := if |live| >= c.max && live != [] then live[1..] else live;
    if |live| >= c.max {
      DropFirst(c, live, now);
    }
    PickedIsFresh(draws, room, {});
    var answer := Added(c, live, now, draws, csrfDraws).1;
    if answer.Created? {
      var s := answer.session;
      PutAtEnd(room, s.token, s, s);
      WithoutElements(room, s.token);
      TouchGood(c, room, s, now, now);
    }
  }

  lemma {:induction false} AddedLive(c: Config, live: Store, now: real, draws: seq<string>, csrfDraws: seq<string>)
    requires c.Valid() && forall i | 0 <= i < |live| :: !Expired(c, live[i].1, now)
    ensures var r := Added(c, live, now, draws, csrfDraws).0; Live(c, r, now) == r
  {
    var room := if |live| >= c.max && live != [] then live[1..] else live;
    AllLive(c, room, now);
    PickedIsFresh(draws, room, {});
    var answer := Added(c, live, now, draws, csrfDraws).1;
    if answer.Created? {
      PutAtEnd(room, answer.session.token, answer.session, answer.session);
      LiveAppend(c, room, (answer.session.token, answer.session), now);
    }
  }

  /** The end of a successful lookup: the session moves to the end, in the store as in the live part of it. */
  lemma {:induction false} FoundAgrees(c: Config, d: Store, s: Session, now: real, again: bool)
    requires c.Valid() && 0.0 <= now && Good(c, d, now) && Get(d, s.token) == Some(s) && !Expired(c, s, now)
    ensures var t := s.(lastSeen := now, reauthenticated := if again then now else s.reauthenticated);
            var r := if again then Put(PutLast(d, s.token, Touched(s, now)), s.token, t) else PutLast(d, s.token, t);
            r == Without(d, s.token) + [(s.token, t)]
            && Good(c, r, now)
            && Live(c, r, now) == Without(Live(c, d, now), s.token) + [(s.token, t)]
  {
    var t := s.(lastSeen := now, reauthenticated := if again then now else s.reauthenticated);
    assert (s.token, s) in d && Sane((s.token, s), now);
    WithoutElements(d, s.token);
    PutAtEnd(Without(d, s.token), s.token, Touched(s, now), t);
    LiveWithout(c, d, s.token, now);
    LiveAppend(c, Without(d, s.token), (s.token, t), now);
    TouchGood(c, d, t, now, now);
  }

  lemma {:induction false} NotFoundAgrees(c: Config, d: Store, token: string, now: real)
    requires Good(c, d, now) && (Get(d, token).None? || Expired(c, Get(d, token).value, now))
    ensures var (r, a) := Authentication(c, d, token, now);
            a == Denied && Live(c, r, now) == Live(c, d, now) && Good(c, r, now)
    ensures Get(Live(c, d, now), token) == None
  {
    LiveGet(c, d, token, now);
    LiveWithout(c, d, token, now);
    WithoutElements(Live(c, d, now), token);
    WithoutGood(c, d, token, now, now);
  }

  lemma FoundIs(c: Config, d: Store, s: Session, now: real)
    requires 1 <= |s.token| <= 256 && Get(d, s.token) == Some(s) && !Expired(c, s, now)
    ensures var d1 := PutLast(d, s.token, Touched(s, now));
            var t := s.(lastSeen := now, reauthenticated := now);
            && Authentication(c, d, s.token, now) == (d1, Authenticated(Touched(s, now)))
            && Reauthentication(c, d, s.token, now) == (Put(d1, s.token, t), Authenticated(t))
  {
  }

  /** Authentication in the source's store, seen through the filter, is the reference's lookup. */
  lemma {:induction false} TouchAgrees(c: Config, d: Store, token: string, now: real, again: bool)
    requires c.Valid() && 0.0 <= now && Good(c, d, now)
    ensures var (r, a) := if again then Reauthentication(c, d, token, now) else Authentication(c, d, token, now);
            var (r', a') := EagerTouch(Live(c, d, now), token, now, again);
            a == a' && r' == Live(c, r, now) && Good(c, r, now)
  {
    var found := Get(d, token);
    if found.None? || Expired(c, found.value, now) {
      NotFoundAgrees(c, d, token, now);
    } else {
      var s := found.value;
      assert (token, s) in d && Sane((token, s), now);
      LiveGet(c, d, token, now);
      FoundIs(c, d, s, now);
      FoundAgrees(c, d, s, now, again);
    }
  }

  lemma {:induction false} EventAgrees(c: Config, d: Store, t: real, e: Event)
    requires c.Valid() && 0.0 <= t <= e.now && Good(c, d, t)
    ensures var (r, a) := Step(c, d, e);
            var (r', a') := EagerStep(c, Live(c, d, t), e);
            a == a' && r' == Live(c, r, e.now) && Good(c, r, e.now)
  {
    var now := e.now;
    var live := Live(c, d, now);
    LiveLater(c, d, t, now);
    assert Good(c, d, now);
    LiveGood(c, d, t, now);
    LiveElements(c, d, now);
    AllLive(c, live, now);
    match e
    case Create(_, draws, csrfDraws) =>
      AddedGood(c, live, now, draws, csrfDraws);
      AddedLive(c, live, now, draws, csrfDraws);
    case Authenticate(_, token) => TouchAgrees(c, d, token, now, false);
    case Reauthenticate(_, token) => TouchAgrees(c, d, token, now, true);
    case Revoke(_, token) =>
      LiveWithout(c, d, token, now);
      WithoutGood(c, d, token, t, now);
    case Prune(_) =>
    case Tick(_) =>
  }

  /**
    Lazy expiry cannot be observed: on a clock that does not go back, the store gives the same answers as one that
    drops each session the instant it expires, and always holds the same live sessions in the same order.
   */
  lemma {:induction false} LazyExpiryIsUnobservable(c: Config, d: Store, t: real, events: seq<Event>)
    requires c.Valid() && 0.0 <= t && Good(c, d, t) && Forward(events, t)
    ensures Run(c, d, events).1 == EagerRun(c, Live(c, d, t), events).1
    ensures EagerRun(c, Live(c, d, t), events).0 == Live(c, Run(c, d, events).0, LastTime(events, t))
    ensures Good(c, Run(c, d, events).0, LastTime(events, t))
    decreases |events|
  {
    if events != [] {
      EventAgrees(c, d, t, events[0]);
      LazyExpiryIsUnobservable(c, Step(c, d, events[0]).0, events[0].now, events[1..]);
    }
  }

  /** From an empty store, so for every run there is. */
  lemma EveryRun(c: Config, events: seq<Event>)
    requires c.Valid() && Forward(events, 0.0)
    ensures Run(c, [], events).1 == EagerRun(c, [], events).1
    ensures Good(c, Run(c, [], events).0, LastTime(events, 0.0))
  {
    LazyExpiryIsUnobservable(c, [], 0.0, events);
  }

  /** A creation keeps all but the first of a full store. */
  lemma {:induction false} AddedKeepsRoom(c: Config, live: Store, now: real, draws: seq<string>, csrfDraws: seq<string>)
    ensures var room := if |live| >= c.max && live != [] then live[1..] else live;
            forall x | x in room :: x in Added(c, live, now, draws, csrfDraws).0
  {
    var room := if |live| >= c.max && live != [] then live[1..] else live;
    PickedIsFresh(draws, room, {});
    var answer := Added(c, live, now, draws, csrfDraws).1;
    if answer.Created? {
      PutAtEnd(room, answer.session.token, answer.session, answer.session);
    }
  }

  lemma {:induction false} Evicted(c: Config, d: Store, t: real, e: Event, lost: (string, Session))
    requires c.Valid() && Good(c, d, t) && 0.0 <= t <= e.now && e.Create?
    requires lost in Live(c, d, e.now) && lost !in Step(c, d, e).0
    ensures var live := Live(c, d, e.now);
            && |live| == c.max
            && lost == live[0]
            && (forall other | other in live && other != lost :: other in Step(c, d, e).0)
            && (forall other | other in live :: lost.1.lastSeen <= other.1.lastSeen)
  {
    var live := Live(c, d, e.now);
    LiveGood(c, d, t, e.now);
    AddedKeepsRoom(c, live, e.now, e.draws, e.csrfDraws);
    assert live == [live[0]] + live[1..];
  }

  /**
    Creation drops a live session only when as many live ones exist as the bound allows, and then drops exactly
    one, which no remaining one was used before.
   */
  lemma {:induction false} EvictionIsLeastRecentlyUsed(c: Config, events: seq<Event>, e: Event, lost: (string, Session))
    requires c.Valid() && Forward(events + [e], 0.0) && e.Create?
    requires var d := Run(c, [], events).0;
             lost in Live(c, d, e.now) && lost !in Step(c, d, e).0
    ensures var d := Run(c, [], events).0;
            var live := Live(c, d, e.now);
            && |live| == c.max
            && lost == live[0]
            && (forall other | other in live && other != lost :: other in Step(c, d, e).0)
            && (forall other | other in live :: lost.1.lastSeen <= other.1.lastSeen)
  {
    ForwardParts(events, e, 0.0);
    EveryRun(c, events);
    Evicted(c, Run(c, [], events).0, LastTime(events, 0.0), e, lost);
  }

  lemma {:induction false} ForwardParts(events: seq<Event>, e: Event, from: real)
    requires Forward(events + [e], from)
    ensures Forward(events, from) && from <= LastTime(events, from) <= e.now
    decreases |events|
  {
    if events != [] {
      assert (events + [e])[1..] == events[1..] + [e] && (events + [e])[0] == events[0];
      ForwardParts(events[1..], e, events[0].now);
    }
  }

  // ---------- the store as the source writes it ----------

  function ExpiredKeys(c: Config, d: Store, now: real): (ks: seq<string>) {
    if d == [] then []
    else
      var last := d[|d| - 1];
      ExpiredKeys(c, d[..|d| - 1], now) + (if Expired(c, last.1, now) then [last.0] else [])
  }

  function Dropped(d: Store, ks: seq<string>): Store {
    if ks == [] then d else Without(Dropped(d, ks[..|ks| - 1]), ks[|ks| - 1])
  }

  lemma {:induction false} DroppedAppend(d: Store, e: (string, Session), ks: seq<string>)
    requires e.0 !in ks
    ensures Dropped(d + [e], ks) == Dropped(d, ks) + [e]
  {
    if ks != [] {
      var last := ks[|ks| - 1];
      assert last in ks;
      DroppedAppend(d, e, ks[..|ks| - 1]);
      WithoutAppend(Dropped(d, ks[..|ks| - 1]), [e], last);
    }
  }

  lemma {:induction false} ExpiredKeysAreKeys(c: Config, d: Store, now: real)
    ensures forall k :: k in ExpiredKeys(c, d, now) ==> k in Keys(d)
  {
    if d != [] {
      var p := d[..|d| - 1];
      assert d == p + [d[|d| - 1]];
      KeysAppend(p, [d[|d| - 1]]);
      ExpiredKeysAreKeys(c, p, now);
    }
  }

  lemma {:induction false} DroppingTheExpired(c: Config, d: Store, now: real)
    requires Unique(Keys(d))
    ensures Dropped(d, ExpiredKeys(c, d, now)) == Live(c, d, now)
    ensures |ExpiredKeys(c, d, now)| == |d| - |Live(c, d, now)|
  {
    if d != [] {
      var p, last := d[..|d| - 1], d[|d| - 1];
      assert d == p + [last];
      assert Keys(d) == Keys(p) + [last.0] && last.0 !in Keys(p);
      DroppingTheExpired(c, p, now);
      LiveAppend(c, p, last, now);
      ExpiredKeysAreKeys(c, p, now);
      var ks := ExpiredKeys(c, p, now);
      DroppedAppend(p, last, ks);
      if Expired(c, last.1, now) {
        assert (ks + [last.0])[..|ks|] == ks;
        WithoutAppend(Live(c, p, now), [last], last.0);
        NotLive(c, p, last.0, now);
        WithoutElements(Live(c, p, now), last.0);
        assert Without([last], last.0) == [] && Live(c, p, now) + [] == Live(c, p, now);
        assert ExpiredKeys(c, d, now) == ks + [last.0];
      } else {
        assert ExpiredKeys(c, d, now) == ks + [] == ks;
      }
    }
  }

  lemma NotLive(c: Config, d: Store, k: string, now: real)
    requires k !in Keys(d)
    ensures k !in Keys(Live(c, d, now))
  {
    LiveElements(c, d, now);
    var r := Live(c, d, now);
    forall i | 0 <= i < |r|
      ensures Keys(r)[i] in Keys(d)
    {
      assert r[i] in d;
      var j :| 0 <= j < |d| && d[j] == r[i];
      assert Keys(d)[j] == Keys(r)[i];
    }
  }

  class SessionStore {
    const c: Config
    var sessions: Store

    constructor (c: Config)
      requires c.Valid()
      ensures this.c == c && sessions == []
    {
      this.c := c;
      sessions := [];
    }

    /** None stands for the refusal of an invalid time. */
    method Prune(now: real) returns (removed: Option<nat>)
      requires Unique(Keys(sessions))
      modifies this
      ensures now < 0.0 ==> removed == None && sessions == old(sessions)
      ensures now >= 0.0 ==> sessions == Live(c, old(sessions), now)
      ensures now >= 0.0 ==> removed == Some(|old(sessions)| - |sessions|)
    {
      if now < 0.0 {
        return None;
      }
      var expired := [];
      for i := 0 to |sessions|
        invariant expired == ExpiredKeys(c, sessions[..i], now)
      {
        assert sessions[..i + 1][..i] == sessions[..i];
        if Expired(c, sessions[i].1, now) {
          expired := expired + [sessions[i].0];
        }
      }
      ghost var d := sessions;
      assert d[..|d|] == d;
      for i := 0 to |expired|
        invariant sessions == Dropped(d, expired[..i])
      {
        assert expired[..i + 1][..i] == expired[..i];
        sessions := Without(sessions, expired[i]);
      }
      assert expired[..|expired|] == expired;
      DroppingTheExpired(c, d, now);
      removed := Some(|expired|);
    }

    /** `draws` are the strings the token factory will return. */
    method UniqueToken(draws: seq<string>, exclude: set<string>) returns (token: Option<string>)
      ensures token == PickToken(draws, sessions, exclude)
    {
      for i := 0 to |draws|
        invariant PickToken(draws, sessions, exclude) == PickToken(draws[i..], sessions, exclude)
      {
        if Acceptable(draws[i], sessions, exclude) {
          return Some(draws[i]);
        }
        assert draws[i..][1..] == draws[i + 1..];
      }
      token := None;
    }

    method Create(now: real, draws: seq<string>, csrfDraws: seq<string>) returns (answer: Answer)
      requires |draws| == |csrfDraws| == TOKEN_TRIES
      requires c.Valid() && Unique(Keys(sessions))
      modifies this
      ensures (sessions, answer) == Step(c, old(sessions), Event.Create(now, draws, csrfDraws))
    {
      var removed := Prune(now);
      if removed.None? {
        return InvalidTime;
      }
      if |sessions| >= c.max {
        sessions := sessions[1..];
      }
      var token := UniqueToken(draws, {});
      if token.None? {
        return NoToken;
      }
      var csrf := UniqueToken(csrfDraws, {token.value});
      if csrf.None? {
        return NoToken;
      }
      var session := Session(token.value, csrf.value, now, now, now);
      sessions := Put(sessions, token.value, session);
      answer := Created(session);
    }

    method Authenticate(token: string, now: real) returns (answer: Answer)
      modifies this
      ensures (sessions, answer) == Step(c, old(sessions), Event.Authenticate(now, token))
    {
      if now < 0.0 {
        return InvalidTime;
      }
      if token == "" || |token| > 256 {
        return Denied;
      }
      var found := Get(sessions, token);
      if found.None? || Expired(c, found.value, now) {
        WithoutElements(sessions, token);
        sessions := Without(sessions, token);
        return Denied;
      }
      var session := found.value;
      var touched := Session(session.token, session.csrf, session.created, now, session.reauthenticated);
      sessions := PutLast(sessions, token, touched);
      answer := Authenticated(touched);
    }

    method Reauthenticate(token: string, now: real) returns (answer: Answer)
      modifies this
      ensures (sessions, answer) == Step(c, old(sessions), Event.Reauthenticate(now, token))
    {
      answer := Authenticate(token, now);
      if answer.Authenticated? {
        var session := answer.session;
        var updated := Session(session.token, session.csrf, session.created, session.lastSeen, now);
        sessions := Put(sessions, token, updated);
        answer := Authenticated(updated);
      }
    }

    method Revoke(token: string)
      modifies this
      ensures sessions == Without(old(sessions), token)
    {
      sessions := Without(sessions, token);
    }
  }
}
