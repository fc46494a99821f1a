/**
  The HTTP policy layer: every request is counted, authenticated and checked before it may reach the recorder.  A
  request is given by what its parsing yields; the clock is read up to three times while one is handled.
 */
module WebPolicy {
  import opened Common
  import opened OrderedDict
  import Sessions
  import RateLimiter

  datatype Route =
    | BadMethod
    | Login
    | Logout
    | Reauthenticate
    | Unknown
    | Endpoint(csrfRequired: bool, reauthRequired: bool)

  /** What the body is as a credentials request. */
  datatype Body = Unparsable | OtherObject | Password(correct: bool)

  datatype Request = Request(
    bounded: bool,            // path and body are within their size limits
    client: string,
    route: Route,
    bearer: Option<string>,   // the token of a bearer Authorization header
    csrf: string,             // the X-CSRF-Token header, empty if absent
    body: Body,
    first: real, second: real, third: real,       // the clock readings
    draws: seq<string>, csrfDraws: seq<string>)   // what the token factory returns

  /** `Crashed` is an exception that `handle` lets escape. */
  datatype Outcome =
    | Refused(status: int)
    | LoggedIn(session: Sessions.Session)
    | LoggedOut(token: string)
    | Reauthenticated(session: Sessions.Session)
    | Dispatched(session: Sessions.Session)
    | Crashed

  datatype Config = Config(sessions: Sessions.Config, requests: RateLimiter.Config, logins: RateLimiter.Config) {
    predicate Valid() {
      sessions.Valid() && requests.Valid() && logins.Valid()
    }
  }

  datatype State = State(sessions: Sessions.Store, requests: RateLimiter.Deques, logins: RateLimiter.Deques)

  function LoginKey(client: string): string {
    "login:" + client
  }

  predicate Ascii(s: string) {
    forall i | 0 <= i < |s| :: s[i] < 128 as char
  }

  /** The constant-time comparison raises an uncaught error for text that is not ASCII. */
  function CsrfProblem(expected: string, candidate: string): Option<Outcome> {
    if |candidate| > 256 then Some(Refused(403))
    else if !Ascii(candidate) then Some(Crashed)
    else if candidate != expected then Some(Refused(403))
    else None
  }

  predicate Recent(c: Sessions.Config, s: Sessions.Session, now: real) {
    0.0 <= now - s.reauthenticated <= c.reauthWindow
  }

  function HandleLogin(c: Config, s: State, r: Request): (State, Outcome) {
    var (logins, verdict) := RateLimiter.Check(c.logins, s.logins, LoginKey(r.client), r.second);
    var s1 := s.(logins := logins);
    if !verdict.Accepted? then (s1, Refused(429))
    else if !r.body.Password? then (s1, Refused(400))
    else if !r.body.correct then (s1, Refused(401))
    else
      var (sessions, answer) := Sessions.Step(c.sessions, s1.sessions, Sessions.Create(r.third, r.draws, r.csrfDraws));
      (s1.(sessions := sessions), if answer.Created? then LoggedIn(answer.session) else Crashed)
  }

  function HandleLogout(s: State, r: Request, session: Sessions.Session): (State, Outcome) {
    var problem := CsrfProblem(session.csrf, r.csrf);
    if problem.Some? then (s, problem.value)
    else (s.(sessions := Without(s.sessions, session.token)), LoggedOut(session.token))
  }

  function HandleReauthenticate(c: Config, s: State, r: Request, session: Sessions.Session): (State, Outcome) {
    var problem := CsrfProblem(session.csrf, r.csrf);
    if problem.Some? then (s, problem.value)
    else if r.body.Unparsable? then (s, Refused(400))
    else if r.body != Password(true) then (s, Refused(401))
    else
      var (sessions, answer) := Sessions.Step(c.sessions, s.sessions, Sessions.Reauthenticate(r.third, session.token));
      (s.(sessions := sessions), if answer.Authenticated? then Reauthenticated(answer.session) else Crashed)
  }

  /** A request to one of the recorder's endpoints; the state stays as it is. */
  function EndpointOutcome(c: Config, r: Request, session: Sessions.Session): Outcome
    requires r.route.Endpoint?
  {
    var problem := if r.route.csrfRequired then CsrfProblem(session.csrf, r.csrf) else None;
    if problem.Some? then problem.value
    else if !r.route.reauthRequired then Dispatched(session)
    else if r.third < 0.0 then Crashed
    else if !Recent(c.sessions, session, r.third) then Refused(401)
    else Dispatched(session)
  }

  function HandleSession(c: Config, s: State, r: Request, session: Sessions.Session): (State, Outcome) {
    match r.route
    case Logout => HandleLogout(s, r, session)
    case Reauthenticate => HandleReauthenticate(c, s, r, session)
    case Endpoint(_, _) => (s, EndpointOutcome(c, r, session))
    case _ => (s, Refused(404))
  }

  function HandleAnswer(c: Config, s: State, r: Request, answer: Sessions.Answer): (State, Outcome) {
    match answer
    case Authenticated(session) => HandleSession(c, s, r, session)
    case Denied => (s, Refused(401))
    case _ => (s, Crashed)
  }

  function HandleBearer(c: Config, s: State, r: Request): (State, Outcome) {
    if r.bearer.None? then (s, Refused(401))
    else
      var (sessions, answer) := Sessions.Step(c.sessions, s.sessions, Sessions.Authenticate(r.second, r.bearer.value));
      HandleAnswer(c, s.(sessions := sessions), r, answer)
  }

  function HandleCounted(c: Config, s: State, r: Request): (State, Outcome) {
    if r.route.BadMethod? then (s, Refused(405))
    else if r.route.Login? then HandleLogin(c, s, r)
    else HandleBearer(c, s, r)
  }

  function Handle(c: Config, s: State, r: Request): (State, Outcome) {
    if !r.bounded then (s, Refused(400))
    else
      var (requests, verdict) := RateLimiter.Check(c.requests, s.requests, r.client, r.first);
      var s1 := s.(requests := requests);
      match verdict
      case Limited => (s1, Refused(429))
      case Refused => (s1, Outcome.Refused(400))
      case Accepted => HandleCounted(c, s1, r)
  }

  /** The state after a run of requests, and the outcome of each. */
  function Run(c: Config, rs: seq<Request>): (State, seq<Outcome>) {
    if rs == [] then (State([], [], []), [])
    else
      var (s, log) := Run(c, rs[..|rs| - 1]);
      var (s1, o) := Handle(c, s, rs[|rs| - 1]);
      (s1, log + [o])
  }

  predicate Ordered(r: Request) {
    0.0 <= r.first <= r.second <= r.third
  }

  /** The clock does not go back, between requests or within one. */
  ghost predicate Forward(rs: seq<Request>) {
    && (forall i | 0 <= i < |rs| :: Ordered(rs[i]))
    && (forall i, j | 0 <= i < j < |rs| :: rs[i].third <= rs[j].first)
  }

  function LastTime(rs: seq<Request>): real {
    if rs == [] then 0.0 else rs[|rs| - 1].third
  }

  // ---------- the session store stays in order ----------

  ghost predicate Good(c: Config, d: Sessions.Store, now: real) {
    c.Valid() && 0.0 <= now && Sessions.Good(c.sessions, d, now)
  }

  lemma {:induction false} GoodLater(c: Config, d: Sessions.Store, t: real, later: real)
    requires Good(c, d, t) && t <= later
    ensures Good(c, d, later)
  {
  }

  lemma {:induction false} StepGood(c: Config, d: Sessions.Store, t: real, e: Sessions.Event)
    requires Good(c, d, t) && t <= e.now
    ensures Good(c, Sessions.Step(c.sessions, d, e).0, e.now)
  {
    Sessions.EventAgrees(c.sessions, d, t, e);
  }

  lemma {:induction false} LoginGood(c: Config, s: State, r: Request, t: real)
    requires Good(c, s.sessions, t) && t <= r.third
    ensures Good(c, HandleLogin(c, s, r).0.sessions, r.third)
  {
    GoodLater(c, s.sessions, t, r.third);
    StepGood(c, s.sessions, t, Sessions.Create(r.third, r.draws, r.csrfDraws));
  }

  lemma {:induction false} SessionGood(c: Config, s: State, r: Request, session: Sessions.Session, t: real)
    requires Good(c, s.sessions, t) && t <= r.third
    ensures Good(c, HandleSession(c, s, r, session).0.sessions, r.third)
  {
    GoodLater(c, s.sessions, t, r.third);
    StepGood(c, s.sessions, t, Sessions.Reauthenticate(r.third, session.token));
    StepGood(c, s.sessions, t, Sessions.Revoke(r.third, session.token));
  }

  lemma {:induction false} BearerGood(c: Config, s: State, r: Request, t: real)
    requires Good(c, s.sessions, t) && t <= r.second <= r.third
    ensures Good(c, HandleBearer(c, s, r).0.sessions, r.third)
  {
    GoodLater(c, s.sessions, t, r.third);
    if r.bearer.Some? {
      var e := Sessions.Authenticate(r.second, r.bearer.value);
      var (d, a) := Sessions.Step(c.sessions, s.sessions, e);
      StepGood(c, s.sessions, t, e);
      GoodLater(c, d, r.second, r.third);
      if a.Authenticated? {
        SessionGood(c, s.(sessions := d), r, a.session, r.second);
      }
    }
  }

  lemma {:induction false} HandleGood(c: Config, s: State, r: Request, t: real)
    requires Good(c, s.sessions, t) && t <= r.first && Ordered(r)
    ensures Good(c, Handle(c, s, r).0.sessions, r.third)
  {
    GoodLater(c, s.sessions, t, r.third);
    var s1 := s.(requests := RateLimiter.Check(c.requests, s.requests, r.client, r.first).0);
    LoginGood(c, s1, r, t);
    BearerGood(c, s1, r, t);
  }

  lemma {:induction false} ForwardParts(rs: seq<Request>, r: Request)
    requires Forward(rs + [r])
    ensures Forward(rs) && Ordered(r) && LastTime(rs) <= r.first
  {
    var all := rs + [r];
    assert all[|rs|] == r && forall i | 0 <= i < |rs| :: all[i] == rs[i];
  }

  lemma {:induction false} RunGood(c: Config, rs: seq<Request>)
    requires c.Valid() && Forward(rs)
    ensures Good(c, Run(c, rs).0.sessions, LastTime(rs))
    ensures |Run(c, rs).1| == |rs|
  {
    if rs != [] {
      var p := rs[..|rs| - 1];
      RunGood(c, p);
      HandleGood(c, Run(c, p).0, rs[|rs| - 1], LastTime(p));
    }
  }

  // ---------- where the stored sessions come from ----------

  lemma {:induction false} AuthenticationEntries(c: Sessions.Config, d: Sessions.Store, token: string, now: real)
    ensures var (r, a) := Sessions.Authentication(c, d, token, now);
            if a.Authenticated? then
              && (forall e :: e in r <==> (e in d && e.0 != token) || e == (token, a.session))
              && exists s :: (token, s) in d && a.session == s.(lastSeen := now) && !Sessions.Expired(c, s, now)
            else
              forall e :: e in r ==> e in d
  {
    WithoutElements(d, token);
    var a := Sessions.Authentication(c, d, token, now).1;
    if a.Authenticated? {
      var s := Get(d, token).value;
      assert (token, s) in d && a.session == s.(lastSeen := now);
    }
  }

  lemma {:induction false} ReauthenticationEntries(c: Sessions.Config, d: Sessions.Store, token: string, now: real)
    ensures var (r, a) := Sessions.Reauthentication(c, d, token, now);
            if a.Authenticated? then
              && (forall e :: e in r <==> (e in d && e.0 != token) || e == (token, a.session))
              && exists s :: (token, s) in d && a.session == s.(lastSeen := now, reauthenticated := now)
            else
              forall e :: e in r ==> e in d
  {
    AuthenticationEntries(c, d, token, now);
    var a := Sessions.Authentication(c, d, token, now).1;
    if a.Authenticated? {
      var s :| (token, s) in d && a.session == s.(lastSeen := now);
      var t := s.(lastSeen := now, reauthenticated := now);
      WithoutElements(d, token);
      PutAtEnd(Without(d, token), token, a.session, t);
      assert a.session.(reauthenticated := now) == t;
    }
  }

  lemma {:induction false} AddedEntries(c: Sessions.Config, live: Sessions.Store, r: Request)
    ensures var (d, a) := Sessions.Added(c, live, r.third, r.draws, r.csrfDraws);
            && (forall e :: e in d ==> e in live || (a.Created? && e == (a.session.token, a.session)))
            && (a.Created? ==> a.session.created == a.session.lastSeen == a.session.reauthenticated == r.third)
  {
    var room := if |live| >= c.max && live != [] then live[1..] else live;
    Sessions.PickedIsFresh(r.draws, room, {});
    var a := Sessions.Added(c, live, r.third, r.draws, r.csrfDraws).1;
    if a.Created? {
      PutAtEnd(room, a.session.token, a.session, a.session);
    }
  }

  /** How the entry `e` came to be in the store after the request `r`; `prior` is what was stored for its token. */
  ghost predicate Came(d: Sessions.Store, e: (string, Sessions.Session), r: Request, o: Outcome,
          prior: Sessions.Session) {
    && o != LoggedOut(e.0)
    && if o == LoggedIn(e.1) then
         r.body == Password(true) && e.1.created == e.1.lastSeen == e.1.reauthenticated == r.third
       else
         && (e.0, prior) in d
         && (|| e.1 == prior
             || (r.bearer == Some(e.0) && e.1 == prior.(lastSeen := r.second))
             || (r.bearer == Some(e.0) && r.body == Password(true) && o == Reauthenticated(e.1)
                 && e.1 == prior.(lastSeen := r.third, reauthenticated := r.third)))
  }

  lemma {:induction false} LoginCame(c: Config, s: State, r: Request, e: (string, Sessions.Session))
    requires 0.0 <= r.third && e in HandleLogin(c, s, r).0.sessions
    ensures Came(s.sessions, e, r, HandleLogin(c, s, r).1, e.1)
  {
    Sessions.LiveElements(c.sessions, s.sessions, r.third);
    AddedEntries(c.sessions, Sessions.Live(c.sessions, s.sessions, r.third), r);
  }

  /** After the token of the request was found and its session touched. */
  lemma {:induction false} SessionCame(c: Config, s: State, r: Request, session: Sessions.Session,
          e: (string, Sessions.Session))
    returns (prior: Sessions.Session)
    requires 0.0 <= r.third && e in HandleSession(c, s, r, session).0.sessions
    ensures var o := HandleSession(c, s, r, session).1;
            && !o.LoggedIn?
            && o != LoggedOut(e.0)
            && (e.0, prior) in s.sessions
            && (|| e.1 == prior
                || (e.0 == session.token && r.body == Password(true) && o == Reauthenticated(e.1)
                    && e.1 == prior.(lastSeen := r.third, reauthenticated := r.third)))
  {
    prior := e.1;
    match r.route
    case Logout => WithoutElements(s.sessions, session.token);
    case Reauthenticate =>
      ReauthenticationEntries(c.sessions, s.sessions, session.token, r.third);
      var (d, a) := Sessions.Step(c.sessions, s.sessions, Sessions.Reauthenticate(r.third, session.token));
      if e !in s.sessions {
        prior :| (session.token, prior) in s.sessions &&
            a.session == prior.(lastSeen := r.third, reauthenticated := r.third);
      }
    case _ =>
  }

  lemma {:induction false} BearerCame(c: Config, s: State, r: Request, e: (string, Sessions.Session), t: real)
    returns (prior: Sessions.Session)
    requires Good(c, s.sessions, t) && t <= r.second <= r.third && e in HandleBearer(c, s, r).0.sessions
    ensures Came(s.sessions, e, r, HandleBearer(c, s, r).1, prior)
  {
    prior := e.1;
    if r.bearer.Some? {
      var token := r.bearer.value;
      AuthenticationEntries(c.sessions, s.sessions, token, r.second);
      var (d, a) := Sessions.Step(c.sessions, s.sessions, Sessions.Authenticate(r.second, token));
      if a.Authenticated? {
        var s1 := s.(sessions := d);
        var mid := SessionCame(c, s1, r, a.session, e);
        var stored :| (token, stored) in s.sessions && a.session == stored.(lastSeen := r.second);
        assert Sessions.Sane((token, stored), t);
        prior := if e.0 == token then stored else mid;
      }
    }
  }

  lemma {:induction false} HandleCame(c: Config, s: State, r: Request, e: (string, Sessions.Session), t: real)
    returns (prior: Sessions.Session)
    requires Good(c, s.sessions, t) && t <= r.first && Ordered(r) && e in Handle(c, s, r).0.sessions
    ensures Came(s.sessions, e, r, Handle(c, s, r).1, prior)
  {
    prior := e.1;
    var (requests, verdict) := RateLimiter.Check(c.requests, s.requests, r.client, r.first);
    var s1 := s.(requests := requests);
    if r.bounded && verdict.Accepted? && !r.route.BadMethod? {
      if r.route.Login? {
        LoginCame(c, s1, r, e);
      } else {
        prior := BearerCame(c, s1, r, e, t);
      }
    }
  }

  // ---------- what a stored session stands for ----------

  /** The request `i` was the login that made the session. */
  predicate Began(rs: seq<Request>, log: seq<Outcome>, i: nat, s: Sessions.Session) {
    && i < |log| == |rs|
    && log[i].LoggedIn?
    && log[i].session.token == s.token
    && log[i].session.csrf == s.csrf
    && rs[i].body == Password(true)
    && rs[i].third == s.created
  }

  /** No request after `i` logged the token out. */
  ghost predicate StillIn(log: seq<Outcome>, i: nat, token: string) {
    forall j | i < j < |log| :: log[j] != LoggedOut(token)
  }

  /** The request `k` showed the password for the session. */
  predicate Showed(rs: seq<Request>, log: seq<Outcome>, k: nat, s: Sessions.Session) {
    && k < |log| == |rs|
    && (log[k].LoggedIn? || log[k].Reauthenticated?)
    && log[k].session.token == s.token
    && rs[k].body == Password(true)
    && rs[k].third == s.reauthenticated
  }

  /** The request `l` used the session: it is the login `i`, or it bore the token. */
  predicate Used(rs: seq<Request>, i: nat, l: nat, s: Sessions.Session) {
    && l < |rs|
    && (l == i || rs[l].bearer == Some(s.token))
    && (s.lastSeen == rs[l].second || s.lastSeen == rs[l].third)
  }

  ghost predicate Earned(rs: seq<Request>, log: seq<Outcome>, s: Sessions.Session, i: nat, k: nat, l: nat) {
    && i <= k && i <= l
    && Began(rs, log, i, s)
    && StillIn(log, i, s.token)
    && Showed(rs, log, k, s)
    && Used(rs, i, l, s)
  }

  lemma {:induction false} StaysEarned(rs: seq<Request>, log: seq<Outcome>, s: Sessions.Session, i: nat, k: nat, l: nat,
                                       r: Request, o: Outcome)
    requires Earned(rs, log, s, i, k, l) && o != LoggedOut(s.token)
    ensures Earned(rs + [r], log + [o], s, i, k, l)
  {
    assert forall j | 0 <= j < |log| :: (log + [o])[j] == log[j] && (rs + [r])[j] == rs[j];
  }

  /** The three witnesses for what is stored after one more request, given those for what was stored before. */
  lemma {:induction false} NextEarned(d: Sessions.Store, rs: seq<Request>, log: seq<Outcome>, r: Request, o: Outcome,
                                      e: (string, Sessions.Session), prior: Sessions.Session, i: nat, k: nat, l: nat)
    returns (i': nat, k': nat, l': nat)
    requires Came(d, e, r, o, prior) && e.0 == e.1.token && |log| == |rs|
    requires o == LoggedIn(e.1) || Earned(rs, log, prior, i, k, l)
    requires o != LoggedIn(e.1) ==> prior.token == e.0
    ensures Earned(rs + [r], log + [o], e.1, i', k', l')
  {
    var n := |rs|;
    var log1, rs1 := log + [o], rs + [r];
    assert log1[n] == o && rs1[n] == r;
    if o == LoggedIn(e.1) {
      i', k', l' := n, n, n;
    } else {
      StaysEarned(rs, log, prior, i, k, l, r, o);
      i', k', l' := i, k, l;
      if e.1 != prior {
        l' := n;
        if o == Reauthenticated(e.1) && e.1.reauthenticated != prior.reauthenticated {
          k' := n;
        }
      }
    }
  }

  /** Every stored session was earned. */
  lemma {:induction false} StoredIsEarned(c: Config, rs: seq<Request>, e: (string, Sessions.Session))
    returns (i: nat, k: nat, l: nat)
    requires c.Valid() && Forward(rs) && e in Run(c, rs).0.sessions
    ensures Earned(rs, Run(c, rs).1, e.1, i, k, l)
  {
    RunGood(c, rs);
    assert Sessions.Sane(e, LastTime(rs));
    var p, r := rs[..|rs| - 1], rs[|rs| - 1];
    var (s, log) := Run(c, p);
    var o := Handle(c, s, r).1;
    assert p + [r] == rs && Run(c, rs).1 == log + [o];
    RunGood(c, p);
    var prior := HandleCame(c, s, r, e, LastTime(p));
    if o != LoggedIn(e.1) {
      assert Sessions.Sane((e.0, prior), LastTime(p));
      i, k, l := StoredIsEarned(c, p, (e.0, prior));
    } else {
      i, k, l := 0, 0, 0;
    }
    i, k, l := NextEarned(s.sessions, p, log, r, o, e, prior, i, k, l);
  }

  // ---------- what reaches the recorder ----------

  /**
    Why the request `r` after the run `rs` may be dispatched with `session`: request `i` was the login that made it,
    no later one logged it out, `k` showed the password, and `l` last used it.
   */
  ghost predicate Justified(c: Config, rs: seq<Request>, log: seq<Outcome>, r: Request, session: Sessions.Session,
                            i: nat, k: nat, l: nat) {
    && i <= k && i <= l
    && r.route.Endpoint?
    && r.bearer == Some(session.token)
    && Began(rs, log, i, session)
    && StillIn(log, i, session.token)
    && Showed(rs, log, k, session)
    && l < |rs|
    && (l == i || rs[l].bearer == Some(session.token))
    && r.second - rs[i].third < c.sessions.absolute
    && r.second - rs[l].third < c.sessions.idle
    && (r.route.csrfRequired ==> r.csrf == session.csrf)
    && (r.route.reauthRequired ==> r.third - rs[k].third <= c.sessions.reauthWindow)
  }

  lemma {:induction false} SessionDispatched(c: Config, s: State, r: Request, session: Sessions.Session)
    ensures HandleSession(c, s, r, session).1.Dispatched? <==>
              r.route.Endpoint? && EndpointOutcome(c, r, session).Dispatched?
    ensures HandleSession(c, s, r, session).1.Dispatched? ==>
              HandleSession(c, s, r, session).1 == EndpointOutcome(c, r, session) == Dispatched(session)
  {
  }

  /** Only the answer to the token matters, in the state in which the request has been counted. */
  lemma {:induction false} AnswerDispatched(c: Config, s: State, r: Request)
    requires r.bearer.Some?
    ensures var d := Sessions.Step(c.sessions, s.sessions, Sessions.Authenticate(r.second, r.bearer.value)).0;
            var a := Sessions.Step(c.sessions, s.sessions, Sessions.Authenticate(r.second, r.bearer.value)).1;
            (a.Authenticated? ==> HandleBearer(c, s, r) == HandleSession(c, s.(sessions := d), r, a.session))
            && (!a.Authenticated? ==> !HandleBearer(c, s, r).1.Dispatched?)
  {
    var e := Sessions.Authenticate(r.second, r.bearer.value);
    var (d, a) := Sessions.Step(c.sessions, s.sessions, e);
    assert HandleBearer(c, s, r) == HandleAnswer(c, s.(sessions := d), r, a);
  }

  lemma {:induction false} LoginNotDispatched(c: Config, s: State, r: Request)
    ensures !HandleLogin(c, s, r).1.Dispatched?
  {
  }

  function Counted(c: Config, s: State, r: Request): State {
    s.(requests := RateLimiter.Check(c.requests, s.requests, r.client, r.first).0)
  }

  predicate Admitted(c: Config, s: State, r: Request) {
    r.bounded && RateLimiter.Check(c.requests, s.requests, r.client, r.first).1 == RateLimiter.Accepted
  }

  lemma {:induction false} BearerRoute(c: Config, s: State, r: Request)
    ensures Handle(c, s, r).1.Dispatched? <==>
              && Admitted(c, s, r) && !r.route.BadMethod? && !r.route.Login?
              && r.bearer.Some? && HandleBearer(c, Counted(c, s, r), r).1.Dispatched?
    ensures Handle(c, s, r).1.Dispatched? ==> Handle(c, s, r) == HandleBearer(c, Counted(c, s, r), r)
  {
    LoginNotDispatched(c, Counted(c, s, r), r);
    if Admitted(c, s, r) {
      assert Handle(c, s, r) == HandleCounted(c, Counted(c, s, r), r);
    } else {
      assert !Handle(c, s, r).1.Dispatched?;
    }
  }

  lemma {:induction false} BearerMeans(c: Config, s: State, r: Request) returns (stored: Sessions.Session)
    requires r.bearer.Some? && HandleBearer(c, s, r).1.Dispatched? && 0.0 <= r.second
    ensures (r.bearer.value, stored) in s.sessions && !Sessions.Expired(c.sessions, stored, r.second)
    ensures var session := stored.(lastSeen := r.second);
            && r.route.Endpoint?
            && HandleBearer(c, s, r).1 == EndpointOutcome(c, r, session) == Dispatched(session)
  {
    var token := r.bearer.value;
    var (d, a) := Sessions.Step(c.sessions, s.sessions, Sessions.Authenticate(r.second, token));
    AnswerDispatched(c, s, r);
    AuthenticationEntries(c.sessions, s.sessions, token, r.second);
    stored :| (token, stored) in s.sessions && a.session == stored.(lastSeen := r.second)
              && !Sessions.Expired(c.sessions, stored, r.second);
    SessionDispatched(c, s.(sessions := d), r, a.session);
  }

  lemma {:induction false} DispatchedMeans(c: Config, s: State, r: Request) returns (stored: Sessions.Session)
    requires Handle(c, s, r).1.Dispatched? && 0.0 <= r.second
    ensures r.bearer.Some? && (r.bearer.value, stored) in s.sessions && !Sessions.Expired(c.sessions, stored, r.second)
    ensures var session := stored.(lastSeen := r.second);
            && r.route.Endpoint?
            && Handle(c, s, r).1 == EndpointOutcome(c, r, session) == Dispatched(session)
  {
    BearerRoute(c, s, r);
    stored := BearerMeans(c, Counted(c, s, r), r);
  }

  /** Nothing reaches the recorder that was not earned by a login, and what an endpoint demands is met. */
  lemma {:induction false} DispatchedIsJustified(c: Config, rs: seq<Request>, r: Request)
    returns (i: nat, k: nat, l: nat)
    requires c.Valid() && Forward(rs + [r]) && Handle(c, Run(c, rs).0, r).1.Dispatched?
    ensures Justified(c, rs, Run(c, rs).1, r, Handle(c, Run(c, rs).0, r).1.session, i, k, l)
  {
    ForwardParts(rs, r);
    RunGood(c, rs);
    var (s, log) := Run(c, rs);
    var stored := DispatchedMeans(c, s, r);
    assert Sessions.Sane((r.bearer.value, stored), LastTime(rs));
    i, k, l := StoredIsEarned(c, rs, (r.bearer.value, stored));
  }

  lemma {:induction false} BearerDispatched(c: Config, s: State, r: Request)
    requires Good(c, s.sessions, r.second) && r.second <= r.third && r.bearer.Some?
    ensures var held := Get(Sessions.Live(c.sessions, s.sessions, r.second), r.bearer.value);
            HandleBearer(c, s, r).1.Dispatched? <==>
              held.Some? && r.route.Endpoint? && EndpointOutcome(c, r, held.value.(lastSeen := r.second)).Dispatched?
  {
    AnswerDispatched(c, s, r);
    Found(c, s.sessions, r.bearer.value, r.second);
    var (d, a) := Sessions.Step(c.sessions, s.sessions, Sessions.Authenticate(r.second, r.bearer.value));
    if a.Authenticated? {
      SessionDispatched(c, s.(sessions := d), r, a.session);
    }
  }

  /**
    A request is dispatched exactly if it is within its bounds, its client is below the request limit, its token
    names a session that a store without lazy expiry would hold, and the demands of its endpoint are met.
   */
  lemma {:induction false} DispatchedExactlyWhen(c: Config, rs: seq<Request>, r: Request)
    requires c.Valid() && Forward(rs + [r])
    ensures var s := Run(c, rs).0;
            Handle(c, s, r).1.Dispatched? <==>
              && Admitted(c, s, r)
              && r.route.Endpoint?
              && r.bearer.Some?
              && var held := Get(Sessions.Live(c.sessions, s.sessions, r.second), r.bearer.value);
                 && held.Some?
                 && (r.route.csrfRequired ==> CsrfProblem(held.value.csrf, r.csrf) == None)
                 && (r.route.reauthRequired ==> Recent(c.sessions, held.value, r.third))
  {
    ForwardParts(rs, r);
    RunGood(c, rs);
    var s := Run(c, rs).0;
    GoodLater(c, s.sessions, LastTime(rs), r.second);
    BearerRoute(c, s, r);
    if r.bearer.Some? {
      BearerDispatched(c, Counted(c, s, r), r);
    }
  }

  /** Authentication finds exactly the live sessions. */
  lemma {:induction false} Found(c: Config, d: Sessions.Store, token: string, now: real)
    requires Good(c, d, now)
    ensures var a := Sessions.Step(c.sessions, d, Sessions.Authenticate(now, token)).1;
            var held := Get(Sessions.Live(c.sessions, d, now), token);
            a == if held.Some? then Sessions.Authenticated(held.value.(lastSeen := now)) else Sessions.Denied
  {
    Sessions.TouchAgrees(c.sessions, d, token, now, false);
  }

  // ---------- when an exception escapes ----------

  /** A CSRF header the comparison cannot take. */
  predicate Incomparable(candidate: string) {
    |candidate| <= 256 && !Ascii(candidate)
  }

  predicate ComparesCsrf(route: Route) {
    route.Logout? || route.Reauthenticate? || (route.Endpoint? && route.csrfRequired)
  }

  lemma {:induction false} LoginCrashes(c: Config, s: State, r: Request)
    requires 0.0 <= r.third
    ensures HandleLogin(c, s, r).1.Crashed? <==>
              && RateLimiter.Check(c.logins, s.logins, LoginKey(r.client), r.second).1 == RateLimiter.Accepted
              && r.body == Password(true)
              && Sessions.Added(c.sessions, Sessions.Live(c.sessions, s.sessions, r.third), r.third, r.draws,
                  r.csrfDraws).1
                   == Sessions.NoToken
  {
  }

  lemma {:induction false} ReauthenticationAnswers(c: Sessions.Config, d: Sessions.Store, s: Sessions.Session,
          now: real)
    requires 0.0 <= now && Get(d, s.token) == Some(s) && 1 <= |s.token| <= 256
    ensures Sessions.Step(c, d, Sessions.Reauthenticate(now, s.token)).1.Authenticated? <==>
              !Sessions.Expired(c, s, now)
  {
  }

  lemma {:induction false} ReauthenticateCrashes(c: Config, s: State, r: Request, session: Sessions.Session)
    requires 0.0 <= r.third && Get(s.sessions, session.token) == Some(session) && 1 <= |session.token| <= 256
    ensures HandleReauthenticate(c, s, r, session).1.Crashed? <==>
              || Incomparable(r.csrf)
              || (CsrfProblem(session.csrf, r.csrf) == None && r.body == Password(true)
                  && Sessions.Expired(c.sessions, session, r.third))
  {
    ReauthenticationAnswers(c.sessions, s.sessions, session, r.third);
  }

  lemma {:induction false} SessionCrashes(c: Config, s: State, r: Request, session: Sessions.Session)
    requires Good(c, s.sessions, r.second) && r.second <= r.third
    requires Get(s.sessions, session.token) == Some(session)
    ensures HandleSession(c, s, r, session).1.Crashed? <==>
              || (ComparesCsrf(r.route) && Incomparable(r.csrf))
              || (r.route.Reauthenticate? && CsrfProblem(session.csrf, r.csrf) == None && r.body == Password(true)
                  && Sessions.Expired(c.sessions, session, r.third))
  {
    assert (session.token, session) in s.sessions;
    assert Sessions.Sane((session.token, session), r.second);
    if r.route.Reauthenticate? {
      ReauthenticateCrashes(c, s, r, session);
    }
  }

  /** A session just touched is what is stored for its token. */
  lemma {:induction false} TouchedIsStored(c: Config, d: Sessions.Store, token: string, now: real)
    requires Good(c, d, now)
    ensures var (r, a) := Sessions.Step(c.sessions, d, Sessions.Authenticate(now, token));
            a.Authenticated? ==> a.session.token == token && Get(r, token) == Some(a.session)
  {
    AuthenticationEntries(c.sessions, d, token, now);
    var (r, a) := Sessions.Step(c.sessions, d, Sessions.Authenticate(now, token));
    if a.Authenticated? {
      StepGood(c, d, now, Sessions.Authenticate(now, token));
      assert (token, a.session) in r;
      var j :| 0 <= j < |r| && r[j] == (token, a.session);
      assert Keys(r)[j] == token && Sessions.Sane(r[j], now);
      assert (token, Get(r, token).value) in r;
    }
  }

  lemma {:induction false} BearerCrashes(c: Config, s: State, r: Request)
    requires Good(c, s.sessions, r.second) && r.second <= r.third
    ensures var held := if r.bearer.None? then None
                        else Get(Sessions.Live(c.sessions, s.sessions, r.second), r.bearer.value);
            HandleBearer(c, s, r).1.Crashed? <==>
              && held.Some?
              && (|| (ComparesCsrf(r.route) && Incomparable(r.csrf))
                  || (r.route.Reauthenticate? && CsrfProblem(held.value.csrf, r.csrf) == None
                      && r.body == Password(true)
                      && Sessions.Expired(c.sessions, held.value.(lastSeen := r.second), r.third)))
  {
    if r.bearer.Some? {
      var e := Sessions.Authenticate(r.second, r.bearer.value);
      StepGood(c, s.sessions, r.second, e);
      Found(c, s.sessions, r.bearer.value, r.second);
      TouchedIsStored(c, s.sessions, r.bearer.value, r.second);
      var (d, a) := Sessions.Step(c.sessions, s.sessions, e);
      if a.Authenticated? {
        SessionCrashes(c, s.(sessions := d), r, a.session);
      }
    }
  }

  /**
    On a parsed request and up to its dispatch, an exception escapes in exactly three situations: the token factory
    fails at a login, a CSRF header that has to be compared holds a character that is not ASCII, or a session ends
    between the two clock readings of a reauthentication.
   */
  lemma {:induction false} CrashesExactlyWhen(c: Config, rs: seq<Request>, r: Request)
    requires c.Valid() && Forward(rs + [r])
    ensures var s := Run(c, rs).0;
            var held := if r.bearer.None? then None
                        else Get(Sessions.Live(c.sessions, s.sessions, r.second), r.bearer.value);
            Handle(c, s, r).1.Crashed? <==>
              && Admitted(c, s, r)
              && if r.route.Login? then
                   && RateLimiter.Check(c.logins, s.logins, LoginKey(r.client), r.second).1 == RateLimiter.Accepted
                   && r.body == Password(true)
                   && Sessions.Added(c.sessions, Sessions.Live(c.sessions, s.sessions, r.third), r.third, r.draws,
                                     r.csrfDraws).1 == Sessions.NoToken
                 else
                   && held.Some?
                   && (|| (ComparesCsrf(r.route) && Incomparable(r.csrf))
                       || (r.route.Reauthenticate? && CsrfProblem(held.value.csrf, r.csrf) == None
                           && r.body == Password(true)
                           && Sessions.Expired(c.sessions, held.value.(lastSeen := r.second), r.third)))
  {
    ForwardParts(rs, r);
    RunGood(c, rs);
    var s := Run(c, rs).0;
    GoodLater(c, s.sessions, LastTime(rs), r.second);
    if Admitted(c, s, r) {
      assert Handle(c, s, r) == HandleCounted(c, Counted(c, s, r), r);
      if r.route.Login? {
        LoginCrashes(c, Counted(c, s, r), r);
      } else {
        BearerCrashes(c, Counted(c, s, r), r);
      }
    }
  }

  // ---------- how often a client may try the password ----------

  predicate ChecksLogin(c: Config, s: State, r: Request) {
    Admitted(c, s, r) && r.route.Login? && RateLimiter.ValidCall(LoginKey(r.client), r.second)
  }

  /** The valid calls of the login limiter. */
  function LoginChecks(c: Config, rs: seq<Request>): seq<(string, real)> {
    if rs == [] then []
    else
      var (p, r) := (rs[..|rs| - 1], rs[|rs| - 1]);
      LoginChecks(c, p) + (if ChecksLogin(c, Run(c, p).0, r) then [(LoginKey(r.client), r.second)] else [])
  }

  /** A login request whose password was looked at. */
  predicate TriedPassword(r: Request, o: Outcome) {
    r.route.Login? && (o.LoggedIn? || o == Refused(401) || o.Crashed?)
  }

  /** How many passwords of a client were looked at by logins in the window (from, to]. */
  function Tries(rs: seq<Request>, log: seq<Outcome>, client: string, from: real, to: real): nat
    requires |log| == |rs|
  {
    if rs == [] then 0
    else
      var (r, o) := (rs[|rs| - 1], log[|log| - 1]);
      Tries(rs[..|rs| - 1], log[..|log| - 1], client, from, to)
      + (if r.client == client && TriedPassword(r, o) && from < r.second <= to then 1 else 0)
  }

  lemma {:induction false} SessionKeepsLogins(c: Config, s: State, r: Request)
    ensures HandleBearer(c, s, r).0.logins == s.logins
  {
  }

  lemma {:induction false} HandleLogins(c: Config, s: State, r: Request)
    ensures var (logins, v) := RateLimiter.Check(c.logins, s.logins, LoginKey(r.client), r.second);
            && Handle(c, s, r).0.logins == (if ChecksLogin(c, s, r) then logins else s.logins)
            && (TriedPassword(r, Handle(c, s, r).1) ==> ChecksLogin(c, s, r) && v == RateLimiter.Accepted)
  {
    SessionKeepsLogins(c, Counted(c, s, r), r);
    if Admitted(c, s, r) {
      assert Handle(c, s, r) == HandleCounted(c, Counted(c, s, r), r);
    }
  }

  lemma {:induction false} LoginChecksStep(c: Config, rs: seq<Request>)
    requires rs != []
    ensures var (p, r) := (rs[..|rs| - 1], rs[|rs| - 1]);
            || LoginChecks(c, rs) == LoginChecks(c, p)
            || (RateLimiter.ValidCall(LoginKey(r.client), r.second)
                && LoginChecks(c, rs) == LoginChecks(c, p) + [(LoginKey(r.client), r.second)])
  {
    var p := rs[..|rs| - 1];
    assert LoginChecks(c, p) + [] == LoginChecks(c, p);
  }

  lemma {:induction false} LastForward(rs: seq<Request>)
    requires Forward(rs) && rs != []
    ensures var (p, r) := (rs[..|rs| - 1], rs[|rs| - 1]);
            Forward(p) && LastTime(p) <= r.second <= r.third == LastTime(rs)
  {
  }

  lemma {:induction false} ChecksForward(c: Config, rs: seq<Request>)
    requires Forward(rs)
    ensures RateLimiter.Forward(LoginChecks(c, rs)) && RateLimiter.LastTime(LoginChecks(c, rs)) <= LastTime(rs)
  {
    if rs != [] {
      var p, r := rs[..|rs| - 1], rs[|rs| - 1];
      LastForward(rs);
      ChecksForward(c, p);
      LoginChecksStep(c, rs);
      ForwardStep(LoginChecks(c, p), LoginKey(r.client), r.second);
    }
  }

  lemma {:induction false} ForwardStep(checks: seq<(string, real)>, key: string, now: real)
    ensures RateLimiter.Forward(checks) && RateLimiter.ValidCall(key, now) && RateLimiter.LastTime(checks) <= now ==>
              RateLimiter.Forward(checks + [(key, now)])
  {
    var all := checks + [(key, now)];
    assert all[|checks|] == (key, now) && forall i | 0 <= i < |checks| :: all[i] == checks[i];
  }

  lemma {:induction false} LoginsFollowChecks(c: Config, rs: seq<Request>)
    ensures Run(c, rs).0.logins == RateLimiter.Run(c.logins, LoginChecks(c, rs)).0
  {
    if rs != [] {
      var p, r := rs[..|rs| - 1], rs[|rs| - 1];
      LoginsFollowChecks(c, p);
      HandleLogins(c, Run(c, p).0, r);
      if ChecksLogin(c, Run(c, p).0, r) {
        OneMoreCheck(c.logins, LoginChecks(c, p), LoginKey(r.client), r.second);
      } else {
        assert LoginChecks(c, p) + [] == LoginChecks(c, p);
      }
    }
  }

  lemma {:induction false} OneMoreCheck(c: RateLimiter.Config, checks: seq<(string, real)>, key: string, now: real)
    ensures var (d, h) := RateLimiter.Run(c, checks);
            var (d1, v) := RateLimiter.Check(c, d, key, now);
            RateLimiter.Run(c, checks + [(key, now)]) == (d1, h + [RateLimiter.Record(key, now, v.Accepted?)])
  {
    var all := checks + [(key, now)];
    assert all[..|checks|] == checks && all[|checks|] == (key, now);
    RateLimiter.RunStep(c, all);
  }

  function LoginHistory(c: Config, rs: seq<Request>): seq<RateLimiter.Record> {
    RateLimiter.Run(c.logins, LoginChecks(c, rs)).1
  }

  lemma {:induction false} HistoryStep(c: Config, rs: seq<Request>)
    requires rs != []
    ensures var (p, r) := (rs[..|rs| - 1], rs[|rs| - 1]);
            var h := LoginHistory(c, p);
            var v := RateLimiter.Check(c.logins, Run(c, p).0.logins, LoginKey(r.client), r.second).1;
            LoginHistory(c, rs)
              == if ChecksLogin(c, Run(c, p).0, r)
                 then h + [RateLimiter.Record(LoginKey(r.client), r.second, v.Accepted?)]
                 else h
  {
    var p, r := rs[..|rs| - 1], rs[|rs| - 1];
    LoginsFollowChecks(c, p);
    OneMoreCheck(c.logins, LoginChecks(c, p), LoginKey(r.client), r.second);
    assert LoginChecks(c, p) + [] == LoginChecks(c, p);
  }

  lemma {:induction false} RunStep(c: Config, rs: seq<Request>)
    requires rs != []
    ensures var (s, log) := Run(c, rs[..|rs| - 1]);
            var (s1, o) := Handle(c, s, rs[|rs| - 1]);
            Run(c, rs) == (s1, log + [o])
  {
  }

  /** How a login limiter's history goes with the outcomes: a password is looked at only after an accepted check. */
  ghost predicate Accounts(rs: seq<Request>, log: seq<Outcome>, h: seq<RateLimiter.Record>) {
    && |log| == |rs|
    && (rs == [] ==> h == [])
    && (rs != [] ==>
          var (p, r, o) := (rs[..|rs| - 1], rs[|rs| - 1], log[|log| - 1]);
          || (!TriedPassword(r, o) && Accounts(p, log[..|log| - 1], h))
          || (&& h != []
              && h[|h| - 1].key == LoginKey(r.client) && h[|h| - 1].now == r.second
              && (TriedPassword(r, o) ==> h[|h| - 1].accepted)
              && Accounts(p, log[..|log| - 1], h[..|h| - 1])))
  }

  lemma {:induction false} RunAccounts(c: Config, rs: seq<Request>)
    ensures Accounts(rs, Run(c, rs).1, LoginHistory(c, rs))
  {
    if rs != [] {
      var p, r := rs[..|rs| - 1], rs[|rs| - 1];
      var (s, log) := Run(c, p);
      RunAccounts(c, p);
      RunStep(c, rs);
      HistoryStep(c, rs);
      HandleLogins(c, s, r);
      var o, h := Handle(c, s, r).1, LoginHistory(c, p);
      assert (log + [o])[..|log|] == log;
      if ChecksLogin(c, s, r) {
        var v := RateLimiter.Check(c.logins, s.logins, LoginKey(r.client), r.second).1;
        var record := RateLimiter.Record(LoginKey(r.client), r.second, v.Accepted?);
        assert (h + [record])[..|h|] == h;
      }
    }
  }

  lemma {:induction false} TriesAreAccepted(rs: seq<Request>, log: seq<Outcome>, h: seq<RateLimiter.Record>,
          client: string, from: real, to: real)
    requires Accounts(rs, log, h)
    ensures Tries(rs, log, client, from, to)
         <= RateLimiter.AcceptedIn(h, LoginKey(client), from, to)
  {
    if rs != [] {
      var p, r := rs[..|rs| - 1], rs[|rs| - 1];
      var l, o := log[..|log| - 1], log[|log| - 1];
      if !TriedPassword(r, o) && Accounts(p, l, h) {
        TriesAreAccepted(p, l, h, client, from, to);
      } else {
        TriesAreAccepted(p, l, h[..|h| - 1], client, from, to);
        assert r.client == client ==> h[|h| - 1].key == LoginKey(client);
      }
    }
  }

  /** The keys of the other clients that tried to log in within the window. */
  function OtherClients(c: Config, rs: seq<Request>, client: string, from: real): set<string> {
    RateLimiter.OthersIn(LoginHistory(c, rs), LoginKey(client), from, from + c.logins.window)
  }

  /** Few other clients in the window keep the client's accepted checks below the limit. */
  predicate LoginBound(c: Config, rs: seq<Request>, client: string, from: real) {
    RateLimiter.WindowBound(LoginHistory(c, rs), LoginKey(client), c.logins.maxKeys,
                            from, from + c.logins.window, c.logins.limit)
  }

  lemma {:induction false} LoginsAreBounded(c: Config, rs: seq<Request>, client: string, from: real)
    requires c.Valid() && Forward(rs)
    ensures LoginBound(c, rs, client, from)
  {
    ChecksForward(c, rs);
    RateLimiter.RunIsBounded(c.logins, LoginChecks(c, rs), LoginKey(client), from);
  }

  /** The log is left open here; it will be that of the run. */
  lemma {:induction false} AccountedAreBounded(c: Config, rs: seq<Request>, log: seq<Outcome>, client: string,
          from: real)
    requires Accounts(rs, log, LoginHistory(c, rs))
    requires LoginBound(c, rs, client, from) && |OtherClients(c, rs, client, from)| < c.logins.maxKeys
    ensures Tries(rs, log, client, from, from + c.logins.window) <= c.logins.limit
  {
    TriesAreAccepted(rs, log, LoginHistory(c, rs), client, from, from + c.logins.window);
  }

  /**
    In a window in which fewer other clients try to log in than the limiter has places, no client has more than
    `limit` passwords looked at, whatever happened before or after it.
   */
  lemma {:induction false} TriesAreBounded(c: Config, rs: seq<Request>, client: string, from: real)
    requires c.Valid() && Forward(rs) && |OtherClients(c, rs, client, from)| < c.logins.maxKeys
    ensures |Run(c, rs).1| == |rs|
    ensures Tries(rs, Run(c, rs).1, client, from, from + c.logins.window) <= c.logins.limit
  {
    RunAccounts(c, rs);
    LoginsAreBounded(c, rs, client, from);
    AccountedAreBounded(c, rs, Run(c, rs).1, client, from);
  }

  /**
    The login limiter prefixes the client's name, so a name the request limiter admits may be too long for it: such a
    client is told that it tried too often however rarely it tries, and exactly those are.
   */
  lemma {:induction false} LongNamesCannotLogIn(c: Config, s: State, r: Request)
    requires c.Valid() && Admitted(c, s, r) && r.route.Login? && 0.0 <= r.second &&
              LoginKey(r.client) !in Keys(s.logins)
    ensures Handle(c, s, r) == (Counted(c, s, r), Refused(429)) <==> |r.client| > 122
  {
    assert Handle(c, s, r) == HandleLogin(c, Counted(c, s, r), r);
    var key := LoginKey(r.client);
    assert RateLimiter.ValidCall(r.client, r.first);
    assert forall i | 0 <= i < |key| :: key[i] == if i < 6 then "login:"[i] else r.client[i - 6];
    if |r.client| <= 122 {
      assert RateLimiter.ValidCall(key, r.second);
      RateLimiter.CheckedDeque(c.logins, s.logins, key, r.second);
    }
  }

  // ---------- inputs for which the code fails ----------

  const REQUEST_LIMIT := RateLimiter.Config(120, 60.0, RateLimiter.MAX_KEYS)
  const LOGIN_LIMIT := RateLimiter.Config(5, 60.0, RateLimiter.MAX_KEYS)
  const DEFAULTS := Config(Sessions.Config(1800.0, 43200.0, 300.0, Sessions.MAX_SESSIONS), REQUEST_LIMIT, LOGIN_LIMIT)

  const TOKEN := "aaaaaaaaaaaaaaaaaaaaaaaaaaaaaaaa"
  const CSRF := "bbbbbbbbbbbbbbbbbbbbbbbbbbbbbbbb"
  const CLIENT := "c"
  const NOTHING := State([], [], [])

  /** A request whose clock readings are `at`, `at` and `third`. */
  function RequestAt(route: Route, bearer: Option<string>, csrf: string, at: real, third: real, draw: string): Request {
    Request(true, CLIENT, route, bearer, csrf, Password(true), at, at, third, [draw, draw, draw, draw],
        [CSRF, CSRF, CSRF, CSRF])
  }

  const LOGIN := RequestAt(Login, None, "", 0.0, 0.0, TOKEN)
  const SESSION := Sessions.Session(TOKEN, CSRF, 0.0, 0.0, 0.0)

  lemma {:induction false} UnknownIsAccepted(c: RateLimiter.Config, key: string, now: real)
    requires c.Valid() && RateLimiter.ValidCall(key, now)
    ensures RateLimiter.Check(c, [], key, now) == ([(key, [now])], RateLimiter.Accepted)
  {
    assert RateLimiter.Counted(c, [], key, now) == [] && RateLimiter.Others(c, [], key) == [] && [] + [now] == [now];
    assert [] + [(key, [now])] == [(key, [now])];
  }

  lemma {:induction false} SecondIsAccepted(c: RateLimiter.Config, key: string, before: real, now: real)
    requires c.Valid() && c.limit >= 2 && RateLimiter.ValidCall(key, now)
    ensures RateLimiter.Check(c, [(key, [before])], key, now).1 == RateLimiter.Accepted
  {
    RateLimiter.CheckedDeque(c, [(key, [before])], key, now);
    assert Get([(key, [before])], key) == Some([before]);
    assert [before][1..] == [];
    assert |RateLimiter.Pruned([before], now - c.window)| <= 1;
  }

  lemma LoginKeyIs()
    ensures RateLimiter.ValidCall(CLIENT, 0.0) && RateLimiter.ValidCall(LoginKey(CLIENT), 0.0)
  {
    var key := LoginKey(CLIENT);
    assert key == "login:c";
    assert key[0] == 'l' && key[1] == 'o' && key[2] == 'g' && key[3] == 'i' && key[4] == 'n' && key[5] == ':' &&
           key[6] == 'c';
  }

  lemma {:induction false} FirstSession()
    ensures Sessions.Step(DEFAULTS.sessions, [], Sessions.Create(0.0, LOGIN.draws, LOGIN.csrfDraws))
         == ([(TOKEN, SESSION)], Sessions.Created(SESSION))
  {
    assert Sessions.Live(DEFAULTS.sessions, [], 0.0) == [];
    assert Sessions.Acceptable(TOKEN, [], {}) && Sessions.Acceptable(CSRF, [], {TOKEN});
    assert Sessions.PickToken(LOGIN.draws, [], {}) == Some(TOKEN);
    assert Sessions.PickToken(LOGIN.csrfDraws, [], {TOKEN}) == Some(CSRF);
  }

  /** What the first login leaves. */
  lemma {:induction false} AfterLogin()
    ensures Run(DEFAULTS, [LOGIN])
         == (State([(TOKEN, SESSION)], [(CLIENT, [0.0])], [(LoginKey(CLIENT), [0.0])]), [LoggedIn(SESSION)])
  {
    LoginKeyIs();
    UnknownIsAccepted(REQUEST_LIMIT, CLIENT, 0.0);
    UnknownIsAccepted(LOGIN_LIMIT, LoginKey(CLIENT), 0.0);
    FirstSession();
    assert [LOGIN][..0] == [] && Run(DEFAULTS, []) == (NOTHING, []);
    var s1 := Counted(DEFAULTS, NOTHING, LOGIN);
    assert Handle(DEFAULTS, NOTHING, LOGIN) == HandleLogin(DEFAULTS, s1, LOGIN);
    assert HandleLogin(DEFAULTS, s1, LOGIN)
        == (State([(TOKEN, SESSION)], s1.requests, [(LoginKey(CLIENT), [0.0])]), LoggedIn(SESSION));
    RunStep(DEFAULTS, [LOGIN]);
    assert [] + [LoggedIn(SESSION)] == [LoggedIn(SESSION)];
  }

  lemma {:induction false} FoundAfterLogin(r: Request)
    requires r.client == CLIENT && r.bounded && r.bearer == Some(TOKEN) && 0.0 <= r.first && 0.0 <= r.second < 1800.0
    ensures var s := Run(DEFAULTS, [LOGIN]).0;
            && Admitted(DEFAULTS, s, r)
            && Get(Sessions.Live(DEFAULTS.sessions, s.sessions, r.second), TOKEN) == Some(SESSION)
  {
    AfterLogin();
    LoginKeyIs();
    SecondIsAccepted(REQUEST_LIMIT, CLIENT, 0.0, r.first);
    Sessions.AllLive(DEFAULTS.sessions, [(TOKEN, SESSION)], r.second);
  }

  lemma {:induction false} ForwardPair(r: Request)
    requires Ordered(r)
    ensures Forward([r]) && Forward([LOGIN] + [r])
  {
  }

  /** A login for which no token can be drawn. */
  lemma {:induction false} LoginCrashHappens()
    ensures var r := RequestAt(Login, None, "", 0.0, 0.0, "");
            Forward([] + [r]) && Handle(DEFAULTS, Run(DEFAULTS, []).0, r).1 == Crashed
  {
    var r := RequestAt(Login, None, "", 0.0, 0.0, "");
    LoginKeyIs();
    UnknownIsAccepted(REQUEST_LIMIT, CLIENT, 0.0);
    UnknownIsAccepted(LOGIN_LIMIT, LoginKey(CLIENT), 0.0);
    ForwardPair(r);
    assert [] + [r] == [r];
    assert Sessions.Live(DEFAULTS.sessions, [], 0.0) == [];
    assert Sessions.PickToken(r.draws, [], {}) == None;
    CrashesExactlyWhen(DEFAULTS, [], r);
  }

  /** A logout whose CSRF header is not ASCII. */
  lemma {:induction false} CsrfCrashHappens()
    ensures var r := RequestAt(Logout, Some(TOKEN), [233 as char], 1.0, 1.0, "");
            Forward([LOGIN] + [r]) && Handle(DEFAULTS, Run(DEFAULTS, [LOGIN]).0, r).1 == Crashed
  {
    var r := RequestAt(Logout, Some(TOKEN), [233 as char], 1.0, 1.0, "");
    ForwardPair(r);
    FoundAfterLogin(r);
    assert !Ascii(r.csrf) by {
      assert r.csrf[0] == 233 as char;
    }
    CrashesExactlyWhen(DEFAULTS, [LOGIN], r);
  }

  lemma {:induction false} ExpiringCrashes(c: Config, rs: seq<Request>, r: Request, held: Sessions.Session)
    requires c.Valid() && Forward(rs + [r]) && Admitted(c, Run(c, rs).0, r)
    requires r.route.Reauthenticate? && r.body == Password(true) && CsrfProblem(held.csrf, r.csrf) == None
    requires r.bearer.Some?
    requires Get(Sessions.Live(c.sessions, Run(c, rs).0.sessions, r.second), r.bearer.value) == Some(held)
    requires Sessions.Expired(c.sessions, held.(lastSeen := r.second), r.third)
    ensures Handle(c, Run(c, rs).0, r).1 == Crashed
  {
    CrashesExactlyWhen(c, rs, r);
  }

  lemma {:induction false} LateReauthenticationCrashes(r: Request)
    requires Ordered(r) && r.client == CLIENT && r.bounded && r.bearer == Some(TOKEN) && r.second < 1800.0
    requires r.route.Reauthenticate? && r.body == Password(true) && r.csrf == CSRF && r.third >= 43200.0
    ensures Forward([LOGIN] + [r]) && Handle(DEFAULTS, Run(DEFAULTS, [LOGIN]).0, r).1 == Crashed
  {
    ForwardPair(r);
    FoundAfterLogin(r);
    SessionIsOver(r);
    ExpiringCrashes(DEFAULTS, [LOGIN], r, SESSION);
  }

  lemma SessionIsOver(r: Request)
    requires r.third >= 43200.0 && r.csrf == CSRF
    ensures Sessions.Expired(DEFAULTS.sessions, SESSION.(lastSeen := r.second), r.third)
    ensures CsrfProblem(SESSION.csrf, r.csrf) == None
  {
  }

  /** A reauthentication during which the session's absolute timeout passes. */
  lemma {:induction false} TimeoutCrashHappens()
    ensures var r := RequestAt(Reauthenticate, Some(TOKEN), CSRF, 1.0, 43200.0, "");
            Forward([LOGIN] + [r]) && Handle(DEFAULTS, Run(DEFAULTS, [LOGIN]).0, r).1 == Crashed
  {
    LateReauthenticationCrashes(RequestAt(Reauthenticate, Some(TOKEN), CSRF, 1.0, 43200.0, ""));
  }

  /** A client whose name has 123 characters is admitted and then told that it tried too often. */
  lemma {:induction false} LongNameHappens(name: string)
    requires |name| == 123 && Ascii(name)
    ensures var r := LOGIN.(client := name);
            Admitted(DEFAULTS, NOTHING, r) && Handle(DEFAULTS, NOTHING, r).1 == Refused(429)
  {
    var r := LOGIN.(client := name);
    UnknownIsAccepted(REQUEST_LIMIT, name, 0.0);
    LongNamesCannotLogIn(DEFAULTS, NOTHING, r);
  }

  // ---------- the policy layer as the source writes it ----------

  class WebApplication {
    const sessions: Sessions.SessionStore
    const requests: RateLimiter.FixedWindowRateLimiter
    const logins: RateLimiter.FixedWindowRateLimiter

    /** The default limits. */
    constructor (sessions: Sessions.SessionStore)
      requires sessions.c.Valid()
      ensures this.sessions == sessions && fresh(requests) && fresh(logins) && Wired()
      ensures Value() == State(sessions.sessions, [], [])
      ensures Settings() == Config(sessions.c, REQUEST_LIMIT, LOGIN_LIMIT)
    {
      this.sessions := sessions;
      requests := new RateLimiter.FixedWindowRateLimiter(REQUEST_LIMIT);
      logins := new RateLimiter.FixedWindowRateLimiter(LOGIN_LIMIT);
    }

    function Settings(): Config {
      Config(sessions.c, requests.c, logins.c)
    }

    /** The two limiters are different objects. */
    predicate Wired() {
      requests != logins && Settings().Valid()
    }

    function Value(): State
      reads sessions, requests, logins
    {
      State(sessions.sessions, requests.events, logins.events)
    }

    method HandleRequest(r: Request) returns (o: Outcome)
      requires Wired() && Unique(Keys(sessions.sessions)) && |r.draws| == |r.csrfDraws| == Sessions.TOKEN_TRIES
      modifies sessions, requests, logins
      ensures (Value(), o) == Handle(Settings(), old(Value()), r)
    {
      if !r.bounded {
        return Refused(400);
      }
      var verdict := requests.CheckKey(r.client, r.first);
      if verdict.Limited? {
        return Refused(429);
      }
      if verdict.Refused? {
        return Refused(400);
      }
      if r.route.BadMethod? {
        return Refused(405);
      }
      if r.route.Login? {
        o := LogIn(r);
        return;
      }
      o := WithSession(r);
    }

    method LogIn(r: Request) returns (o: Outcome)
      requires Wired() && Unique(Keys(sessions.sessions)) && |r.draws| == |r.csrfDraws| == Sessions.TOKEN_TRIES
      modifies sessions, logins
      ensures (Value(), o) == HandleLogin(Settings(), old(Value()), r)
    {
      var verdict := logins.CheckKey(LoginKey(r.client), r.second);
      if !verdict.Accepted? {
        return Refused(429);
      }
      if !r.body.Password? {
        return Refused(400);
      }
      if !r.body.correct {
        return Refused(401);
      }
      var answer := sessions.Create(r.third, r.draws, r.csrfDraws);
      o := if answer.Created? then LoggedIn(answer.session) else Crashed;
    }

    method WithSession(r: Request) returns (o: Outcome)
      requires Wired()
      modifies sessions
      ensures (Value(), o) == HandleBearer(Settings(), old(Value()), r)
    {
      if r.bearer.None? {
        return Refused(401);
      }
      var answer := sessions.Authenticate(r.bearer.value, r.second);
      match answer
      case Denied => return Refused(401);
      case Authenticated(session) =>
        match r.route {
          case Logout => o := LogOut(r, session);
          case Reauthenticate => o := ShowPassword(r, session);
          case Endpoint(_, _) => o := EndpointOutcome(Settings(), r, session);
          case _ => o := Refused(404);
        }
      case _ => o := Crashed;
    }

    method LogOut(r: Request, session: Sessions.Session) returns (o: Outcome)
      modifies sessions
      ensures (Value(), o) == HandleLogout(old(Value()), r, session)
    {
      var problem := CsrfProblem(session.csrf, r.csrf);
      if problem.Some? {
        return problem.value;
      }
      sessions.Revoke(session.token);
      o := LoggedOut(session.token);
    }

    method ShowPassword(r: Request, session: Sessions.Session) returns (o: Outcome)
      modifies sessions
      ensures (Value(), o) == HandleReauthenticate(Settings(), old(Value()), r, session)
    {
      var problem := CsrfProblem(session.csrf, r.csrf);
      if problem.Some? {
        return problem.value;
      }
      if r.body.Unparsable? {
        return Refused(400);
      }
      if r.body != Password(true) {
        return Refused(401);
      }
      var answer := sessions.Reauthenticate(session.token, r.third);
      o := if answer.Authenticated? then Reauthenticated(answer.session) else Crashed;
    }
  }
}
