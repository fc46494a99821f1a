/**
  The boot-time choice between client and access-point mode: a polling loop with a deadline, a sticky decision, and an
  activation that publishes credentials only after the access point was observed.  Commands, sleeps and the file store
  answer as they like: a command or sleep may exceed what it was given by at most `slack` seconds, and a sleep lasts
  at least as long as asked.
 */
module NetworkMode {
  import opened Common
  import opened ApProfile

  const COMMAND_TIMEOUT := 5.0
  const AP_WINDOW := 30.0
  const MAX_CLIENT_WINDOW := 60

  datatype Mode = ClientMode | ApMode | NoMode

  datatype Reason =
    | ClientReady | ClientWindowExpired | AmbiguousWifi | CommandFailed | ApActivationFailed | AlreadySelected

  datatype Result = Result(mode: Mode, reason: Reason, interface: Option<string>, ssid: Option<string>, published: bool)

  datatype Command =
    | DeviceStatus
    | ShowState(interface: string)
    | ShowConnection(interface: string)
    | ShowWifiMode(interface: string)
    | ShowRoutes(interface: string)
    | Down(uuid: string)
    | LoadProfile
    | Up(uuid: string, interface: string)
    | ShowActive(uuid: string, interface: string)
    | ShowAddresses(interface: string)

  /** A command's exit status, whether its output passes the source's check of it, and the Wi-Fi devices it lists. */
  datatype Reply = Reply(took: real, rc: int, fits: bool, wifi: seq<string>)

  /** Commands whose output the source reads, besides their exit status. */
  predicate ReadsOutput(c: Command) {
    c.ShowState? || c.ShowConnection? || c.ShowWifiMode? || c.ShowRoutes? || c.ShowActive? || c.ShowAddresses?
  }

  predicate Passes(c: Command, r: Reply) {
    r.rc == 0 && (ReadsOutput(c) ==> r.fits)
  }

  /** How the file store answers: an unreadable file reads as absent, and a failed write may still have replaced. */
  datatype StoreReply = StoreReply(readable: bool, safe: bool, written: bool, replaced: bool)

  datatype Event =
    | Ran(command: Command, at: real, succeeded: bool)
    | StoredCredentials(credentials: Credentials)
    | WroteProfile(credentials: Credentials, interface: string)  // the profile printed for these was written
    | WroteBootCredentials(credentials: Credentials)

  /** What is asked of the selector, in the boot service's process or in an operator's. */
  datatype Ask = Boot | Retry

  /** How profiles are printed for credentials and an interface, and the interface read back with credentials. */
  datatype ProfileFormat = ProfileFormat(
    printed: (Credentials, string) -> Option<string>,
    readBack: (Credentials, string) -> Option<string>)
  {
    ghost predicate RoundTrips() {
      forall c: Credentials, i: string | c.Valid() && SafeInterface(i) ::
        printed(c, i).Some? && readBack(c, printed(c, i).value) == Some(i)
    }
  }

  /** The format of the source. */
  const KEYFILE := ProfileFormat((c, i) => ProfileFor(c, i), (c, profile) => PersistedInterface(c, profile))

  lemma KeyfilesRoundTrip()
    ensures KEYFILE.RoundTrips()
  {
    forall c: Credentials, i: string | c.Valid() && SafeInterface(i)
      ensures KEYFILE.printed(c, i).Some? && KEYFILE.readBack(c, KEYFILE.printed(c, i).value) == Some(i)
    {
      ReadsBackExactly(c, i, c);
    }
  }

  function Min(a: real, b: real): real {
    if a < b then a else b
  }

  function Clamp(x: real, low: real, high: real): real
    requires low <= high
  {
    if x < low then low else if x > high then high else x
  }

  function SafeNames(names: seq<string>): (r: seq<string>)
    ensures forall i | 0 <= i < |r| :: SafeInterface(r[i])
  {
    if names == [] then []
    else (if SafeInterface(names[0]) then [names[0]] else []) + SafeNames(names[1..])
  }

  ghost predicate Succeeded(e: Event, command: Command) {
    e.Ran? && e.command == command && e.succeeded
  }

  /**
    `commands` were asked in order, up to the first one that failed or that the deadline did not allow, and `ok` says
    whether all of them succeeded.
   */
  ghost predicate Answered(ok: bool, asked: seq<Event>, commands: seq<Command>, now: real, deadline: real) {
    && |asked| <= |commands|
    && (forall i | 0 <= i < |asked| ::
          asked[i].Ran? && asked[i].command == commands[i] && (asked[i].succeeded || i == |asked| - 1))
    && (ok <==> asked != [] && |asked| == |commands| && asked[|asked| - 1].succeeded)
    && (!ok ==> now >= deadline || (asked != [] && !asked[|asked| - 1].succeeded))
  }

  function ClientQuestions(interface: string): seq<Command> {
    [ShowState(interface)] + [ShowConnection(interface)] + [ShowWifiMode(interface)] + [ShowRoutes(interface)]
  }

  function ApSteps(uuid: string, interface: string): seq<Command> {
    [LoadProfile] + [Up(uuid, interface)] + [ShowActive(uuid, interface)] + [ShowAddresses(interface)]
  }

  /** What must have happened, in this order, before an access-point result. */
  ghost predicate ApEvidence(events: seq<Event>, c: Credentials, interface: string, published: bool) {
    && |events| == (if published then 7 else 6)
    && events[0] == StoredCredentials(c)
    && events[1] == WroteProfile(c, interface)
    && Succeeded(events[2], LoadProfile)
    && Succeeded(events[3], Up(c.uuid, interface))
    && Succeeded(events[4], ShowActive(c.uuid, interface))
    && Succeeded(events[5], ShowAddresses(interface))
    && (published ==> events[6] == WroteBootCredentials(c))
  }

  /** What must have happened, in this order, before a client result. */
  ghost predicate ClientEvidence(events: seq<Event>, interface: string) {
    && |events| == 4
    && Succeeded(events[0], ShowState(interface))
    && Succeeded(events[1], ShowConnection(interface))
    && Succeeded(events[2], ShowWifiMode(interface))
    && Succeeded(events[3], ShowRoutes(interface))
  }

  /** Commands started before the deadline. */
  ghost predicate StartedBefore(events: seq<Event>, deadline: real) {
    forall i | 0 <= i < |events| :: events[i].Ran? ==> events[i].at < deadline
  }

  lemma Associates(a: seq<Event>, b: seq<Event>, c: seq<Event>)
    ensures a + b + c == a + (b + c)
  {
  }

  ghost predicate EndsUsable(events: seq<Event>, interface: string) {
    |events| >= 4 && ClientEvidence(events[|events| - 4..], interface)
  }

  /** The seconds that so many full polling intervals take. */
  function Intervals(rounds: nat, poll: int): int {
    if rounds == 0 then 0 else Intervals(rounds - 1, poll) + poll
  }

  lemma {:induction false} IntervalsMultiply(rounds: nat, poll: int)
    ensures Intervals(rounds, poll) == rounds * poll
  {
    if rounds > 0 {
      IntervalsMultiply(rounds - 1, poll);
      assert (rounds - 1) * poll + poll == rounds * poll;
    }
  }

  lemma MoreTakesLonger(a: int, b: int, poll: int)
    requires a <= b && poll >= 0
    ensures a * poll <= b * poll
  {
    assert (b - a) * poll == b * poll - a * poll;
  }

  lemma RoundsBound(rounds: nat, poll: int, most: int)
    requires poll >= 1 && Intervals(rounds, poll) <= most
    ensures rounds <= most / poll
  {
    var q := most / poll;
    IntervalsMultiply(rounds, poll);
    assert (q + 1) * poll == q * poll + poll;
    if q < rounds {
      MoreTakesLonger(q + 1, rounds, poll);
    }
  }

  /** Events of a client phase: commands started before its deadline, and nothing published. */
  ghost predicate ClientPhase(events: seq<Event>, deadline: real) {
    StartedBefore(events, deadline) && NoBootWrite(events)
  }

  ghost predicate NoBootWrite(events: seq<Event>) {
    forall i | 0 <= i < |events| :: !events[i].WroteBootCredentials?
  }

  /** What a fresh decision rests on: the events of its client phase, and then its evidence. */
  ghost predicate RestsOn(r: Result, phase: seq<Event>, evidence: seq<Event>, c: Option<Credentials>,
                          format: ProfileFormat, credentialsFile: Option<Stored>, profileFile: Option<string>) {
    match r.mode
    case ApMode =>
      && c.Some? && r.interface.Some?
      && ApEvidence(evidence, c.value, r.interface.value, r.published)
      && r == Result(ApMode, ClientWindowExpired, r.interface, Some(c.value.ssid), r.published)
      && credentialsFile == Some(ToStored(c.value))
      && profileFile.Some? && format.readBack(c.value, profileFile.value) == r.interface
    case ClientMode =>
      && evidence == [] && |phase| >= 5 && r.interface.Some?
      && EndsUsable(phase, r.interface.value)
      && r == Result(ClientMode, ClientReady, r.interface, None, false)
    case NoMode =>
      NoBootWrite(evidence)
  }

  /** What the first reply of a fresh decision, and then the client checks, make of it. */
  ghost predicate Follows(r: Result, first: Reply, phase: seq<Event>) {
    var names := SafeNames(first.wifi);
    if first.rc != 0 then r == Result(NoMode, CommandFailed, None, None, false)
    else if |names| != 1 then r == Result(NoMode, AmbiguousWifi, None, None, false)
    else
      && r.interface == Some(names[0])
      && (r.mode == ClientMode <==> Routed(phase, names[0]))
      && (r.mode == NoMode ==> r.reason == ApActivationFailed)
  }

  /** A connection was taken down. */
  predicate TookDown(e: Event) {
    e.Ran? && e.command.Down? && e.succeeded
  }

  /** The connection of these credentials was asked to go down; if it did not, the access point is still reported. */
  ghost predicate AskedDown(c: Credentials, interface: string, left: bool, r: Result, down: seq<Event>) {
    && |down| == 1 && down[0].Ran? && down[0].command == Down(c.uuid)
    && (!left ==> r == Result(ApMode, CommandFailed, Some(interface), Some(c.ssid), false))
  }

  /** Some client check got a positive answer to its last question. */
  ghost predicate Routed(events: seq<Event>, interface: string) {
    exists i | 0 <= i < |events| :: Succeeded(events[i], ShowRoutes(interface))
  }

  lemma {:induction false} ClientAnswers(ok: bool, asked: seq<Event>, interface: string, now: real, deadline: real)
    requires Answered(ok, asked, ClientQuestions(interface), now, deadline)
    ensures ok ==> ClientEvidence(asked, interface)
    ensures ok <==> Routed(asked, interface)
  {
    var q := ClientQuestions(interface);
    assert q == [ShowState(interface), ShowConnection(interface), ShowWifiMode(interface), ShowRoutes(interface)];
    if ok {
      assert Succeeded(asked[3], ShowRoutes(interface));
    }
  }

  lemma {:induction false} RoutedAppend(a: seq<Event>, b: seq<Event>, interface: string)
    ensures Routed(a + b, interface) <==> Routed(a, interface) || Routed(b, interface)
  {
    if Routed(a, interface) {
      var i :| 0 <= i < |a| && Succeeded(a[i], ShowRoutes(interface));
      assert (a + b)[i] == a[i];
    }
    if Routed(b, interface) {
      var i :| 0 <= i < |b| && Succeeded(b[i], ShowRoutes(interface));
      assert (a + b)[|a| + i] == b[i];
    }
  }

  function Prologue(c: Credentials, interface: string): seq<Event> {
    [StoredCredentials(c), WroteProfile(c, interface)]
  }

  function Epilogue(c: Credentials, published: bool): seq<Event> {
    if published then [WroteBootCredentials(c)] else []
  }

  /** Only the steps of an activation are commands, and only its end publishes. */
  lemma {:induction false} ActivationLog(c: Credentials, interface: string, steps: seq<Event>, published: bool,
          deadline: real)
    requires ClientPhase(steps, deadline)
    ensures var added := Prologue(c, interface) + (steps + Epilogue(c, published));
            StartedBefore(added, deadline) && (!published ==> NoBootWrite(added))
  {
  }

  lemma {:induction false} ApAnswers(steps: seq<Event>, c: Credentials, interface: string, published: bool, now: real,
          deadline: real)
    requires Answered(true, steps, ApSteps(c.uuid, interface), now, deadline)
    ensures ApEvidence(Prologue(c, interface) + (steps + Epilogue(c, published)), c, interface, published)
  {
    var q := ApSteps(c.uuid, interface);
    assert q == [LoadProfile, Up(c.uuid, interface), ShowActive(c.uuid, interface), ShowAddresses(interface)];
  }

  /** One more client check after checks that found nothing usable. */
  lemma {:induction false} OneMoreRound(added: seq<Event>, usable: bool, more: seq<Event>, interface: string, now: real,
        deadline: real)
    requires ClientPhase(added, deadline) && !Routed(added, interface)
    requires ClientPhase(more, deadline) && Answered(usable, more, ClientQuestions(interface), now, deadline)
    ensures ClientPhase(added + more, deadline) && (usable <==> Routed(added + more, interface))
    ensures usable ==> EndsUsable(added + more, interface)
  {
    ClientAnswers(usable, more, interface, now, deadline);
    RoutedAppend(added, more, interface);
    if usable {
      assert (added + more)[|added + more| - 4..] == more;
    }
  }

  /** A device question, and the client checks after it. */
  lemma {:induction false} ChecksAfter(first: seq<Event>, more: seq<Event>, interface: string, deadline: real)
    requires |first| == 1 && first[0].Ran? && first[0].command == DeviceStatus
    requires ClientPhase(first, deadline) && ClientPhase(more, deadline)
    ensures ClientPhase(first + more, deadline) && (Routed(first + more, interface) <==> Routed(more, interface))
    ensures EndsUsable(more, interface) ==> EndsUsable(first + more, interface) && |first + more| >= 5
  {
    RoutedAppend(first, more, interface);
    if EndsUsable(more, interface) {
      assert (first + more)[|first + more| - 4..] == more[|more| - 4..];
    }
  }

  /** What a fresh decision is when the first reply names no single interface. */
  lemma NoInterface(r: Result, first: Reply, failed: bool, phase: seq<Event>, c: Option<Credentials>,
          format: ProfileFormat, credentialsFile: Option<Stored>, profileFile: Option<string>)
    requires failed <==> first.rc != 0
    requires first.rc == 0 ==> |SafeNames(first.wifi)| != 1
    requires r == Result(NoMode, if failed then CommandFailed else AmbiguousWifi, None, None, false)
    ensures RestsOn(r, phase, [], c, format, credentialsFile, profileFile) && Follows(r, first, phase)
  {
  }

  /** ... when a client check found the interface usable. */
  lemma UsableClient(r: Result, first: Reply, interface: string, phase: seq<Event>, c: Option<Credentials>,
          format: ProfileFormat, credentialsFile: Option<Stored>, profileFile: Option<string>)
    requires first.rc == 0 && SafeNames(first.wifi) == [interface]
    requires Routed(phase, interface) && EndsUsable(phase, interface) && |phase| >= 5
    requires r == Result(ClientMode, ClientReady, Some(interface), None, false)
    ensures RestsOn(r, phase, [], c, format, credentialsFile, profileFile) && Follows(r, first, phase)
  {
  }

  /** ... when no client check did, and an access point was tried. */
  lemma TriedAp(r: Result, first: Reply, interface: string, phase: seq<Event>)
    requires first.rc == 0 && SafeNames(first.wifi) == [interface]
    requires !Routed(phase, interface) && r.mode != ClientMode && r.interface == Some(interface)
    requires r.mode == NoMode ==> r.reason == ApActivationFailed
    ensures Follows(r, first, phase)
  {
  }

  lemma {:induction false} DownIsBetween(earlier: seq<Event>, before: seq<Event>, down: seq<Event>, phase: seq<Event>,
        evidence: seq<Event>)
    ensures var log := earlier + before + down + phase + evidence;
            earlier <= log && (down != [] && TookDown(down[0]) ==> TakenDownBetween(log, |earlier|, |log|))
  {
    if down != [] {
      assert (earlier + before + down + phase + evidence)[|earlier| + |before|] == down[0];
    }
  }

  /** The events of an activation whose credentials and profile are stored. */
  lemma {:induction false} Activation(added: seq<Event>, up: bool, steps: seq<Event>, c: Credentials,
        interface: string, published: bool, now: real, deadline: real)
    requires added == Prologue(c, interface) + (steps + Epilogue(c, published))
    requires Answered(up, steps, ApSteps(c.uuid, interface), now, deadline) && ClientPhase(steps, deadline)
    ensures StartedBefore(added, deadline) && (!published ==> NoBootWrite(added))
    ensures up ==> ApEvidence(added, c, interface, published)
  {
    ActivationLog(c, interface, steps, published, deadline);
    if up {
      ApAnswers(steps, c, interface, published, now, deadline);
    }
  }

  class NetworkFallbackController {
    const window: int
    const poll: int
    const slack: real
    const format: ProfileFormat
    const reply: nat -> Reply
    const overrun: nat -> real
    const store: nat -> StoreReply
    const bootIsSafe: nat -> bool
    const derive: (string, string) -> string
    const generate: nat -> Credentials

    var now: real
    var asked: nat  // questions put to the environment so far
    var credentialsFile: Option<Stored>
    var profileFile: Option<string>
    var bootFile: Option<Credentials>
    var selected: Option<Result>
    ghost var log: seq<Event>

    ghost predicate Valid() {
      && 1 <= poll <= window <= MAX_CLIENT_WINDOW
      && slack >= 0.0
      && format.RoundTrips()
      && forall n: nat :: generate(n).Valid()
    }

    constructor (window: int, poll: int, slack: real, format: ProfileFormat, reply: nat -> Reply, overrun: nat -> real,
                 store: nat -> StoreReply, bootIsSafe: nat -> bool, derive: (string, string) -> string,
                 generate: nat -> Credentials, now: real, credentialsFile: Option<Stored>, profileFile: Option<string>)
      requires 1 <= poll <= window <= MAX_CLIENT_WINDOW && slack >= 0.0
      requires format.RoundTrips() && forall n: nat :: generate(n).Valid()
      ensures Valid() && this.now == now && selected == None && log == []
      ensures this.window == window && this.poll == poll && this.slack == slack && this.format == format
      ensures this.credentialsFile == credentialsFile && this.profileFile == profileFile && bootFile == None
    {
      this.window, this.poll, this.slack, this.format := window, poll, slack, format;
      this.reply, this.overrun, this.store, this.bootIsSafe := reply, overrun, store, bootIsSafe;
      this.derive, this.generate := derive, generate;
      this.now, asked, this.credentialsFile, this.profileFile, bootFile := now, 0, credentialsFile, profileFile, None;
      selected, log := None, [];
    }

    /** The file store reads what is there, finds it safe, and writes what it is given. */
    ghost predicate StoreWorks() {
      forall n: nat :: store(n).readable && store(n).safe && store(n).written
    }

    /** What loading the credentials asks for, as the file store answers. */
    function Loading(file: Option<Stored>, asked: nat): Loaded {
      Load(if store(asked).readable then file else None, store(asked).safe, derive, generate(asked))
    }

    /** How often loading the credentials asks the file store: to read, and to write what it migrated or generated. */
    function Questions(file: Option<Stored>, asked: nat): nat {
      if Loading(file, asked).WriteThenUse? then 2 else 1
    }

    /** With a working file store, only a stored file that is refused stands in the way of credentials. */
    ghost predicate LoadedUnlessRefused(file: Option<Stored>, asked: nat, loaded: bool) {
      StoreWorks() ==> (loaded <==> !Loading(file, asked).Refused?)
    }

    /** None if the deadline has passed; the command is then not started. */
    method RunBefore(command: Command, deadline: real) returns (r: Option<Reply>)
      requires slack >= 0.0
      modifies `now, `asked, `log
      ensures r.None? <==> old(now) >= deadline
      ensures r.None? ==> now == old(now) && log == old(log)
      ensures r.Some? ==> asked == old(asked) + 1
      ensures r.Some? ==> old(now) <= now <= deadline + slack && now <= old(now) + COMMAND_TIMEOUT + slack
      ensures r.Some? ==>
                && log == old(log) + [Ran(command, old(now), Passes(command, r.value))]
                && r.value == reply(old(asked))
    {
      var remaining := deadline - now;
      if remaining <= 0.0 {
        return None;
      }
      var answer := reply(asked);
      log := log + [Ran(command, now, Passes(command, answer))];
      now := now + Clamp(answer.took, 0.0, Min(COMMAND_TIMEOUT, remaining) + slack);
      asked := asked + 1;
      r := Some(answer);
    }

    method FindOneWifiInterface(deadline: real)
      returns (interface: Option<string>, failed: bool, ghost added: seq<Event>)
      requires slack >= 0.0 && now < deadline
      modifies `now, `asked, `log
      ensures old(now) <= now <= deadline + slack
      ensures log == old(log) + added && |added| == 1 && ClientPhase(added, deadline)
      ensures added[0].Ran? && added[0].command == DeviceStatus
      ensures var first := reply(old(asked));
              var names := SafeNames(first.wifi);
              && (failed <==> first.rc != 0)
              && interface == (if first.rc == 0 && |names| == 1 then Some(names[0]) else None)
    {
      var result := RunBefore(DeviceStatus, deadline);
      added := [log[|log| - 1]];
      if result.None? || result.value.rc != 0 {
        return None, true, added;
      }
      var interfaces := SafeNames(result.value.wifi);
      if |interfaces| == 1 {
        return Some(interfaces[0]), false, added;
      }
      return None, false, added;
    }

    /** One question whose answer must be positive. */
    method Confirm(command: Command, deadline: real) returns (ok: bool, ghost added: seq<Event>)
      requires slack >= 0.0
      modifies `now, `asked, `log
      ensures old(now) <= now && (now <= deadline + slack || now == old(now))
      ensures now <= old(now) + COMMAND_TIMEOUT + slack
      ensures log == old(log) + added && ClientPhase(added, deadline) && (added == [] <==> old(now) >= deadline)
      ensures Answered(ok, added, [command], now, deadline) && (ok ==> asked == old(asked) + 1)
    {
      var r := RunBefore(command, deadline);
      ok := r.Some? && Passes(command, r.value);
      added := if r.Some? then [log[|log| - 1]] else [];
    }

    /** The next question, unless one before it was answered in the negative; `base` is the log before all of them. */
    method ThenConfirm(ok: bool, ghost before: seq<Event>, ghost commands: seq<Command>, command: Command,
                       deadline: real, ghost base: seq<Event>)
      returns (all: bool, ghost added: seq<Event>)
      requires slack >= 0.0 && Answered(ok, before, commands, now, deadline)
      requires log == base + before && ClientPhase(before, deadline)
      modifies `now, `asked, `log
      ensures old(now) <= now && (now <= deadline + slack || now == old(now))
      ensures log == base + added && ClientPhase(added, deadline)
      ensures Answered(all, added, commands + [command], now, deadline)
    {
      all, added := false, before;
      if ok {
        ghost var more;
        all, more := Confirm(command, deadline);
        added := before + more;
        Associates(base, before, more);
      }
    }

    method ClientIsUsable(interface: string, deadline: real) returns (usable: bool, ghost added: seq<Event>)
      requires slack >= 0.0
      modifies `now, `asked, `log
      ensures old(now) <= now && (now <= deadline + slack || now == old(now))
      ensures log == old(log) + added && ClientPhase(added, deadline)
      ensures Answered(usable, added, ClientQuestions(interface), now, deadline)
    {
      ghost var base, q := log, [ShowState(interface)];
      usable, added := Confirm(ShowState(interface), deadline);
      usable, added := ThenConfirm(usable, added, q, ShowConnection(interface), deadline, base);
      q := q + [ShowConnection(interface)];
      usable, added := ThenConfirm(usable, added, q, ShowWifiMode(interface), deadline, base);
      q := q + [ShowWifiMode(interface)];
      usable, added := ThenConfirm(usable, added, q, ShowRoutes(interface), deadline, base);
    }

    /** The stored credentials, migrated or generated if need be; None if they are refused or cannot be written. */
    method LoadCredentials() returns (c: Option<Credentials>)
      requires Valid()
      modifies `asked, `credentialsFile, `log
      ensures var loaded := Loading(old(credentialsFile), old(asked));
              && (c.None? <==> loaded.Refused? || (loaded.WriteThenUse? && !store(old(asked) + 1).written))
              && (c.Some? ==> c.value == loaded.credentials)
      ensures c.Some? ==> c.value.Valid() && credentialsFile == Some(ToStored(c.value))
      ensures asked == old(asked) + Questions(old(credentialsFile), old(asked))
      ensures log == old(log) + (if c.Some? then [StoredCredentials(c.value)] else [])
    {
      var loaded := Loading(credentialsFile, asked);
      asked := asked + 1;
      match loaded
      case Refused => return None;
      case Use(credentials) =>
        log := log + [StoredCredentials(credentials)];
        return Some(credentials);
      case WriteThenUse(credentials) =>
        var write := store(asked);
        asked := asked + 1;
        if write.written || write.replaced {
          credentialsFile := Some(ToStored(credentials));
        }
        if !write.written {
          return None;
        }
        log := log + [StoredCredentials(credentials)];
        return Some(credentials);
    }

    /** Store the credentials and a matching profile; None if either is refused. */
    method PrepareProfile(interface: string) returns (c: Option<Credentials>, ghost added: seq<Event>)
      requires Valid() && SafeInterface(interface)
      modifies `asked, `credentialsFile, `profileFile, `log
      ensures c.Some? ==>
                && c.value.Valid()
                && credentialsFile == Some(ToStored(c.value))
                && profileFile == format.printed(c.value, interface)
                && profileFile.Some? && format.readBack(c.value, profileFile.value) == Some(interface)
                && added == Prologue(c.value, interface)
      ensures log == old(log) + added
      ensures forall i | 0 <= i < |added| :: !added[i].Ran? && !added[i].WroteBootCredentials?
      ensures LoadedUnlessRefused(old(credentialsFile), old(asked), c.Some?)
    {
      added := [];
      c := LoadCredentials();
      if c.None? {
        return;
      }
      added := [StoredCredentials(c.value)];
      var profile := format.printed(c.value, interface).value;
      var write := store(asked);
      asked := asked + 1;
      if write.written || write.replaced {
        profileFile := Some(profile);
      }
      if !write.written {
        c := None;
        return;
      }
      log := log + [WroteProfile(c.value, interface)];
      added := added + [WroteProfile(c.value, interface)];
    }

    /** Load the profile, bring it up, and see exactly its binding and address. */
    method BringUp(uuid: string, interface: string, deadline: real) returns (ok: bool, ghost added: seq<Event>)
      requires slack >= 0.0
      modifies `now, `asked, `log
      ensures old(now) <= now && (now <= deadline + slack || now == old(now))
      ensures log == old(log) + added && ClientPhase(added, deadline)
      ensures Answered(ok, added, ApSteps(uuid, interface), now, deadline)
    {
      ghost var base, q := log, [LoadProfile];
      ok, added := Confirm(LoadProfile, deadline);
      ok, added := ThenConfirm(ok, added, q, Up(uuid, interface), deadline, base);
      q := q + [Up(uuid, interface)];
      ok, added := ThenConfirm(ok, added, q, ShowActive(uuid, interface), deadline, base);
      q := q + [ShowActive(uuid, interface)];
      ok, added := ThenConfirm(ok, added, q, ShowAddresses(interface), deadline, base);
    }

    /** Hand the credentials over on the boot volume, if that is safe. */
    method Publish(c: Credentials) returns (published: bool)
      modifies `asked, `bootFile, `log
      ensures log == old(log) + (if published then [WroteBootCredentials(c)] else [])
      ensures published <==> bootIsSafe(old(asked)) && store(old(asked) + 1).written
      ensures published ==> bootFile == Some(c)
      ensures bootIsSafe(old(asked)) && store(old(asked) + 1).replaced ==> bootFile == Some(c)
      ensures !published && !(bootIsSafe(old(asked)) && store(old(asked) + 1).replaced) ==> bootFile == old(bootFile)
    {
      published := bootIsSafe(asked);
      asked := asked + 1;
      if published {
        var write := store(asked);
        asked := asked + 1;
        if write.written || write.replaced {
          bootFile := Some(c);
        }
        published := write.written;
      }
      if published {
        log := log + [WroteBootCredentials(c)];
      }
    }

    /** Bring the stored profile up and, once it is up, publish its credentials. */
    method RaiseAp(c: Credentials, interface: string, deadline: real)
      returns (up: bool, published: bool, ghost added: seq<Event>, ghost steps: seq<Event>)
      requires slack >= 0.0
      modifies `now, `asked, `bootFile, `log
      ensures old(now) <= now && (now <= deadline + slack || now == old(now))
      ensures Answered(up, steps, ApSteps(c.uuid, interface), now, deadline) && ClientPhase(steps, deadline)
      ensures log == old(log) + added && added == steps + Epilogue(c, published)
      ensures published ==> up
      ensures !up ==> bootFile == old(bootFile)
    {
      published := false;
      up, steps := BringUp(c.uuid, interface, deadline);
      if up {
        published := Publish(c);
      }
      added := steps + Epilogue(c, published);
    }

    method ActivateAp(interface: string)
      returns (r: Result, ghost c: Option<Credentials>, ghost added: seq<Event>, ghost steps: seq<Event>)
      requires Valid() && SafeInterface(interface)
      modifies `now, `asked, `credentialsFile, `profileFile, `bootFile, `log
      ensures old(now) <= now <= old(now) + AP_WINDOW + slack
      ensures log == old(log) + added && StartedBefore(added, old(now) + AP_WINDOW)
      ensures r.mode == ApMode ==>
                && c.Some? && ApEvidence(added, c.value, interface, r.published)
                && r == Result(ApMode, ClientWindowExpired, Some(interface), Some(c.value.ssid), r.published)
                && credentialsFile == Some(ToStored(c.value))
                && profileFile.Some? && format.readBack(c.value, profileFile.value) == Some(interface)
      ensures r.mode != ApMode ==>
                && r == Result(NoMode, ApActivationFailed, Some(interface), None, false)
                && NoBootWrite(added)
                && bootFile == old(bootFile)
      // with credentials and a profile stored, success is that of the steps
      ensures c.Some? ==> Answered(r.mode == ApMode, steps, ApSteps(c.value.uuid, interface), now, old(now) + AP_WINDOW)
      ensures c.None? ==> r.mode != ApMode
      ensures LoadedUnlessRefused(old(credentialsFile), old(asked), c.Some?)
    {
      var deadline := now + AP_WINDOW;
      r := Result(NoMode, ApActivationFailed, Some(interface), None, false);
      steps := [];
      var prepared, up, published;
      prepared, added := PrepareProfile(interface);
      c := prepared;
      if prepared.None? {
        return;
      }
      ghost var more;
      up, published, more, steps := RaiseAp(prepared.value, interface, deadline);
      Associates(old(log), added, more);
      added := added + more;
      Activation(added, up, steps, prepared.value, interface, published, now, deadline);
      if up {
        r := Result(ApMode, ClientWindowExpired, Some(interface), Some(prepared.value.ssid), published);
      }
    }

    /** Ask until the client is usable or the deadline has passed; `rounds` counts the checks. */
    method PollClient(interface: string, ghost start: real, deadline: real)
      returns (usable: bool, ghost rounds: nat, ghost added: seq<Event>)
      requires Valid() && start <= now <= deadline + slack && deadline == start + window as real
      modifies `now, `asked, `log
      ensures old(now) <= now <= deadline + slack
      ensures log == old(log) + added && ClientPhase(added, deadline)
      ensures usable ==> EndsUsable(added, interface)
      ensures !usable ==> now >= deadline
      ensures usable <==> Routed(added, interface)
      ensures rounds <= (window + poll - 1) / poll
    {
      usable, rounds, added := false, 0, [];
      ghost var slept := 0;  // at least so many whole seconds, while the deadline has not passed
      while now < deadline
        invariant old(now) <= now <= deadline + slack
        invariant slept == Intervals(rounds, poll) && !usable
        invariant now >= deadline || now >= start + slept as real
        invariant rounds > 0 ==> slept - poll < window
        invariant log == old(log) + added && ClientPhase(added, deadline)
        invariant !Routed(added, interface)
        decreases window - slept
      {
        assert slept < window;
        ghost var more;
        usable, more := ClientIsUsable(interface, deadline);
        OneMoreRound(added, usable, more, interface, now, deadline);
        Associates(old(log), added, more);
        added := added + more;
        rounds, slept := rounds + 1, slept + poll;
        if usable {
          break;
        }
        var remaining := deadline - now;
        if remaining <= 0.0 {
          break;
        }
        now := now + Min(poll as real, remaining) + Clamp(overrun(asked), 0.0, slack);
        asked := asked + 1;
      }
      RoundsBound(rounds, poll, window + poll - 1);
    }

    /**
      A fresh decision: the events of the client phase and of what follows it, the number of client checks, and the
      credentials of an access point.
     */
    method Decide()
      returns (r: Result, ghost phase: seq<Event>, ghost evidence: seq<Event>, ghost rounds: nat,
              ghost c: Option<Credentials>)
      requires Valid()
      modifies `now, `asked, `credentialsFile, `profileFile, `bootFile, `log
      ensures old(now) <= now <= old(now) + window as real + AP_WINDOW + 2.0 * slack
      ensures r.mode == ClientMode ==> now <= old(now) + window as real + slack
      ensures rounds <= (window + poll - 1) / poll
      ensures log == old(log) + phase + evidence && ClientPhase(phase, old(now) + window as real)
      ensures RestsOn(r, phase, evidence, c, format, credentialsFile, profileFile)
      ensures Follows(r, reply(old(asked)), phase)
      ensures r.interface.Some? && r.mode != ClientMode ==> now >= old(now) + window as real
      ensures r.mode != ApMode ==> bootFile == old(bootFile)
    {
      evidence, rounds, c := [], 0, None;
      ghost var start, first := now, reply(asked);
      var deadline := now + window as real;
      var interface, failed, usable;
      interface, failed, phase := FindOneWifiInterface(deadline);
      if interface.None? {
        r := Result(NoMode, if failed then CommandFailed else AmbiguousWifi, None, None, false);
        NoInterface(r, first, failed, phase, c, format, credentialsFile, profileFile);
        return;
      }
      ghost var more;
      usable, rounds, more := PollClient(interface.value, start, deadline);
      ChecksAfter(phase, more, interface.value, deadline);
      Associates(old(log), phase, more);
      phase := phase + more;
      if usable {
        r := Result(ClientMode, ClientReady, interface, None, false);
        UsableClient(r, first, interface.value, phase, c, format, credentialsFile, profileFile);
        return;
      }
      ghost var steps;
      r, c, evidence, steps := ActivateAp(interface.value);
      TriedAp(r, first, interface.value, phase);
    }

    /** A decision stands; otherwise it is made. */
    method SelectForBoot()
      returns (r: Result, ghost phase: seq<Event>, ghost evidence: seq<Event>, ghost rounds: nat,
              ghost c: Option<Credentials>)
      requires Valid()
      modifies `now, `asked, `credentialsFile, `profileFile, `bootFile, `log, `selected
      ensures log == old(log) + phase + evidence
      // sticky: a decision is repeated without asking anything
      ensures old(selected).Some? ==>
                && selected == old(selected)
                && r == old(selected).value.(reason := AlreadySelected)
                && now == old(now) && phase == evidence == [] && bootFile == old(bootFile)
      // bounded in time, in client checks, and in when commands are started; ordered, as every result has its evidence
      ensures old(selected).None? ==>
                && selected == Some(r)
                && old(now) <= now <= old(now) + window as real + AP_WINDOW + 2.0 * slack
                && (r.mode == ClientMode ==> now <= old(now) + window as real + slack)
                && rounds <= (window + poll - 1) / poll
                && ClientPhase(phase, old(now) + window as real)
                && RestsOn(r, phase, evidence, c, format, credentialsFile, profileFile)
                && Follows(r, reply(old(asked)), phase)
                && (r.interface.Some? && r.mode != ClientMode ==> now >= old(now) + window as real)
                && (r.mode != ApMode ==> bootFile == old(bootFile))
    {
      if selected.Some? {
        phase, evidence, rounds, c := [], [], 0, None;
        r := selected.value.(reason := AlreadySelected);
        return;
      }
      r, phase, evidence, rounds, c := Decide();
      selected := Some(r);
    }

    /** The files are those of an access point that was activated with these credentials on this interface. */
    ghost predicate Persisted(file: Option<Stored>, c: Credentials, interface: string)
      reads `profileFile
    {
      && c.Valid() && file == Some(ToStored(c))
      && profileFile.Some? && format.readBack(c, profileFile.value) == Some(interface)
    }

    /** Find what the stored access point is called; None if there is none that matches its credentials. */
    method PersistedIdentity() returns (identity: Option<(Credentials, string)>, ghost added: seq<Event>)
      requires Valid()
      modifies `asked, `credentialsFile, `log
      ensures log == old(log) + added && forall i | 0 <= i < |added| :: added[i].StoredCredentials?
      ensures identity.Some? ==>
                && asked == old(asked) + Questions(old(credentialsFile), old(asked)) + 1
                && profileFile.Some?
                && credentialsFile == Some(ToStored(identity.value.0))
                && format.readBack(identity.value.0, profileFile.value) == Some(identity.value.1)
      ensures StoreWorks() ==> forall c: Credentials, i: string | Persisted(old(credentialsFile), c, i) ::
                identity == Some((c, i))
    {
      identity := None;
      var loaded := LoadCredentials();
      added := if loaded.Some? then [StoredCredentials(loaded.value)] else [];
      if loaded.None? || profileFile.None? {
        return;
      }
      var answer := store(asked);
      asked := asked + 1;
      var interface := format.readBack(loaded.value, profileFile.value);
      if answer.readable && answer.safe && interface.Some? {
        identity := Some((loaded.value, interface.value));
      }
    }

    /** Take the stored access point's connection down; `refusal` is the result if that is not possible. */
    method LeaveAp() returns (left: bool, refusal: Result, ghost before: seq<Event>, ghost down: seq<Event>)
      requires Valid()
      modifies `now, `asked, `credentialsFile, `log
      ensures old(now) <= now <= old(now) + COMMAND_TIMEOUT + slack
      ensures log == old(log) + before + down && |down| <= 1
      ensures left <==> down != [] && TookDown(down[0])
      ensures left ==> asked == old(asked) + Questions(old(credentialsFile), old(asked)) + 2
      ensures !left ==> refusal.mode != ClientMode && refusal.reason == CommandFailed
      ensures StoreWorks() ==> forall c: Credentials, i: string | Persisted(old(credentialsFile), c, i) ::
                AskedDown(c, i, left, refusal, down)
    {
      left, refusal, down := false, Result(NoMode, CommandFailed, None, None, false), [];
      var identity;
      identity, before := PersistedIdentity();
      if identity.Some? {
        left, down := Confirm(Down(identity.value.0.uuid), now + AP_WINDOW);
        refusal := Result(ApMode, CommandFailed, Some(identity.value.1), Some(identity.value.0.ssid), false);
      }
    }

    /**
      An operator's request to leave the stored access point and try once more: the decision is revoked only by
      taking the stored connection down, and then made anew.
     */
    method RetryClient()
      returns (r: Result, ghost left: bool, ghost before: seq<Event>, ghost down: seq<Event>, ghost phase: seq<Event>,
               ghost evidence: seq<Event>, ghost began: real, ghost rounds: nat, ghost c: Option<Credentials>)
      requires Valid()
      modifies `now, `asked, `credentialsFile, `profileFile, `bootFile, `log, `selected
      ensures old(now) <= now <= old(now) + COMMAND_TIMEOUT + window as real + AP_WINDOW + 3.0 * slack
      ensures slack == 0.0 ==> now <= old(now) + 95.0
      ensures log == old(log) + before + down + phase + evidence && |down| <= 1
      ensures left <==> down != [] && TookDown(down[0])
      ensures !left ==> selected == old(selected) && bootFile == old(bootFile) && phase + evidence == []
      // a fresh decision has what one for boot has, from when it began
      ensures left ==>
                var first := old(asked) + Questions(old(credentialsFile), old(asked)) + 2;
                && selected == Some(r)
                && old(now) <= began <= old(now) + COMMAND_TIMEOUT + slack
                && began <= now <= began + window as real + AP_WINDOW + 2.0 * slack
                && (r.mode == ClientMode ==> now <= began + window as real + slack)
                && rounds <= (window + poll - 1) / poll
                && ClientPhase(phase, began + window as real)
                && RestsOn(r, phase, evidence, c, format, credentialsFile, profileFile)
                && Follows(r, reply(first), phase)
                && (r.interface.Some? && r.mode != ClientMode ==> now >= began + window as real)
                && (r.mode != ApMode ==> bootFile == old(bootFile))
      // a later process takes down exactly the connection that an earlier one activated
      ensures StoreWorks() ==> forall c: Credentials, i: string | old(Persisted(credentialsFile, c, i)) ::
                AskedDown(c, i, left, r, down)
    {
      phase, evidence, rounds, c := [], [], 0, None;
      var gone;
      gone, r, before, down := LeaveAp();
      left, began := gone, now;
      if !gone {
        return;
      }
      selected := None;
      ghost var refusal := r;
      r, phase, evidence, rounds, c := SelectForBoot();
      DownStays(refusal, r, down);
    }

    /** Once the connection is down it no longer matters what is reported. */
    lemma DownStays(refusal: Result, r: Result, down: seq<Event>)
      ensures forall c: Credentials, i: string | AskedDown(c, i, true, refusal, down) :: AskedDown(c, i, true, r, down)
    {
    }

    /** One request: a decision is given up only if a connection was taken down. */
    method Answer(ask: Ask) returns (r: Result)
      requires Valid()
      modifies `now, `asked, `credentialsFile, `profileFile, `bootFile, `log, `selected
      ensures old(log) <= log
      ensures old(selected).Some? && selected != old(selected) ==> TakenDownBetween(log, |old(log)|, |log|)
    {
      ghost var phase, evidence, earlier := [], [], log;
      match ask
      case Boot =>
        ghost var rounds, c;
        r, phase, evidence, rounds, c := SelectForBoot();
      case Retry =>
        ghost var left, before, down, began, rounds, c;
        r, left, before, down, phase, evidence, began, rounds, c := RetryClient();
        DownIsBetween(earlier, before, down, phase, evidence);
    }

    /** Any sequence of requests: the decision after each, and the length of the log then. */
    method Serve(asks: seq<Ask>) returns (decisions: seq<Option<Result>>, ghost ends: seq<nat>)
      requires Valid()
      modifies `now, `asked, `credentialsFile, `profileFile, `bootFile, `log, `selected
      ensures |decisions| == |asks| && GivenUpOnlyByDown(decisions, ends, log)
    {
      decisions, ends := [], [];
      for n := 0 to |asks|
        invariant |decisions| == n && Sticky(decisions, ends, log)
        invariant n > 0 ==> decisions[n - 1] == selected && ends[n - 1] == |log|
      {
        ghost var earlier, was := log, selected;
        var r := Answer(asks[n]);
        OneMoreAsk(decisions, ends, earlier, log, was, selected);
        decisions, ends := decisions + [selected], ends + [|log|];
      }
      EveryPair(decisions, ends, log);
    }
  }

  // ---------- the decision over any sequence of calls ----------

  ghost predicate TakenDownBetween(log: seq<Event>, from: nat, to: nat) {
    exists m | from <= m < to <= |log| :: TookDown(log[m])
  }

  /** From each request to the next, a decision changes only if a connection was taken down meanwhile. */
  ghost predicate Sticky(decisions: seq<Option<Result>>, ends: seq<nat>, log: seq<Event>) {
    && |decisions| == |ends|
    && (forall i | 0 <= i < |ends| :: ends[i] <= |log|)
    && (forall i | 0 < i < |ends| :: ends[i - 1] <= ends[i])
    && (forall i | 0 < i < |ends| :: decisions[i - 1].Some? && decisions[i] != decisions[i - 1] ==>
          TakenDownBetween(log, ends[i - 1], ends[i]))
  }

  lemma {:induction false} LongerLog(log: seq<Event>, longer: seq<Event>, from: nat, to: nat)
    requires log <= longer && TakenDownBetween(log, from, to)
    ensures TakenDownBetween(longer, from, to)
  {
    var m :| from <= m < to && TookDown(log[m]);
    assert TookDown(longer[m]);
  }

  lemma {:induction false} OneMoreAsk(decisions: seq<Option<Result>>, ends: seq<nat>, log: seq<Event>,
          longer: seq<Event>, was: Option<Result>, selected: Option<Result>)
    requires Sticky(decisions, ends, log) && log <= longer
    requires decisions != [] ==> decisions[|decisions| - 1] == was && ends[|ends| - 1] == |log|
    requires was.Some? && selected != was ==> TakenDownBetween(longer, |log|, |longer|)
    ensures Sticky(decisions + [selected], ends + [|longer|], longer)
  {
    var d, e := decisions + [selected], ends + [|longer|];
    forall i | 0 < i < |e| && d[i - 1].Some? && d[i] != d[i - 1]
      ensures TakenDownBetween(longer, e[i - 1], e[i])
    {
      if i < |ends| {
        LongerLog(log, longer, ends[i - 1], ends[i]);
      }
    }
  }

  /** Between two requests, a decision can only differ if a connection was taken down between them. */
  lemma {:induction false} DecisionsAreSticky(decisions: seq<Option<Result>>, ends: seq<nat>, log: seq<Event>, i: nat,
          j: nat)
    requires Sticky(decisions, ends, log) && i < j < |decisions| && decisions[i].Some? && decisions[j] != decisions[i]
    ensures TakenDownBetween(log, ends[i], ends[j])
    decreases j - i
  {
    if decisions[j - 1] != decisions[i] {
      DecisionsAreSticky(decisions, ends, log, i, j - 1);
      Wider(log, ends[i], ends[j - 1], ends[i], ends[j]);
    } else {
      EndsGrow(decisions, ends, log, i, j - 1);
      Wider(log, ends[j - 1], ends[j], ends[i], ends[j]);
    }
  }

  lemma {:induction false} EndsGrow(decisions: seq<Option<Result>>, ends: seq<nat>, log: seq<Event>, i: nat, j: nat)
    requires Sticky(decisions, ends, log) && i <= j < |ends|
    ensures ends[i] <= ends[j]
    decreases j
  {
    if i < j {
      EndsGrow(decisions, ends, log, i, j - 1);
    }
  }

  lemma {:induction false} Wider(log: seq<Event>, from: nat, to: nat, from': nat, to': nat)
    requires TakenDownBetween(log, from, to) && from' <= from && to <= to' <= |log|
    ensures TakenDownBetween(log, from', to')
  {
  }

  /** A decision that differs from an earlier one was preceded, since then, by a connection taken down. */
  ghost predicate GivenUpOnlyByDown(decisions: seq<Option<Result>>, ends: seq<nat>, log: seq<Event>) {
    && |decisions| == |ends|
    && forall i, j | 0 <= i < j < |decisions| && decisions[i].Some? && decisions[j] != decisions[i] ::
         TakenDownBetween(log, ends[i], ends[j])
  }

  lemma {:induction false} EveryPair(decisions: seq<Option<Result>>, ends: seq<nat>, log: seq<Event>)
    requires Sticky(decisions, ends, log)
    ensures GivenUpOnlyByDown(decisions, ends, log)
  {
    forall i, j | 0 <= i < j < |decisions| && decisions[i].Some? && decisions[j] != decisions[i]
      ensures TakenDownBetween(log, ends[i], ends[j])
    {
      DecisionsAreSticky(decisions, ends, log, i, j);
    }
  }
}
