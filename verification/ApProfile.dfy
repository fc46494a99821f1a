/** The fallback access point's NetworkManager profile: printed from stored credentials, validated, and read back. */
module ApProfile {
  import opened Common

  // ---------- credentials ----------

  predicate Upper(ch: char) { 'A' <= ch <= 'Z' }
  predicate Lower(ch: char) { 'a' <= ch <= 'z' }
  predicate Digit(ch: char) { '0' <= ch <= '9' }

  predicate SecretChar(ch: char) {
    Upper(ch) || Lower(ch) || Digit(ch) || ch == '_' || ch == '-'
  }

  predicate SsidChar(ch: char) {
    'A' <= ch <= 'F' || Digit(ch)
  }

  predicate UuidChar(ch: char) {
    'a' <= ch <= 'f' || Digit(ch)
  }

  /** The text a UUID object prints. */
  predicate CanonicalUuid(s: string) {
    && |s| == 36
    && forall i | 0 <= i < 36 :: if i in {8, 13, 18, 23} then s[i] == '-' else UuidChar(s[i])
  }

  datatype Credentials = Credentials(ssid: string, secret: string, uuid: string) {
    predicate Valid() {
      && |ssid| == 16 && ssid[..8] == "Dashcam-" && (forall i | 8 <= i < 16 :: SsidChar(ssid[i]))
      && 20 <= |secret| <= 128 && (forall i | 0 <= i < |secret| :: SecretChar(secret[i]))
      && CanonicalUuid(uuid)
    }
  }

  predicate InterfaceChar(ch: char) {
    Upper(ch) || Lower(ch) || Digit(ch) || ch == '_' || ch == '.' || ch == '-'
  }

  predicate SafeInterface(s: string) {
    1 <= |s| <= 32 && forall i | 0 <= i < |s| :: InterfaceChar(s[i])
  }

  // ---------- strings ----------

  predicate StartsWith(s: string, p: string) {
    |p| <= |s| && s[..|p|] == p
  }

  predicate Contains(s: string, p: string) {
    exists i | 0 <= i <= |s| :: StartsWith(s[i..], p)
  }

  /** `s.replace(p, r)` */
  function Replace(s: string, p: string, r: string): string
    requires p != []
  {
    if |s| < |p| then s
    else if StartsWith(s, p) then r + Replace(s[|p|..], p, r)
    else [s[0]] + Replace(s[1..], p, r)
  }

  /** `s.count(p)` */
  function Count(s: string, p: string): nat
    requires p != []
  {
    if |s| < |p| then 0
    else if StartsWith(s, p) then 1 + Count(s[|p|..], p)
    else Count(s[1..], p)
  }

  /** The characters at which `splitlines` ends a line. */
  predicate LineEnd(ch: char) {
    '\n' <= ch <= '\r' || 0x1c as char <= ch <= 0x1e as char || ch as int in {0x85, 0x2028, 0x2029}
  }

  /** `s.splitlines()`, after `line` has been read of the first line. */
  function SplitLines(s: string, line: string): seq<string> {
    if s == [] then (if line == [] then [] else [line])
    else if LineEnd(s[0]) then
      [line] + SplitLines(if |s| >= 2 && s[0] == '\r' && s[1] == '\n' then s[2..] else s[1..], [])
    else SplitLines(s[1..], line + [s[0]])
  }

  function Join(lines: seq<string>): string {
    if lines == [] then [] else lines[0] + "\n" + Join(lines[1..])
  }

  function Bindings(lines: seq<string>): seq<string> {
    if lines == [] then []
    else (if StartsWith(lines[0], BINDING) then [lines[0][|BINDING|..]] else []) + Bindings(lines[1..])
  }

  // ---------- the profile ----------

  const BINDING := "interface-name="
  const PLACEHOLDER := "${INTERFACE}"

  function Head(c: Credentials): seq<string> {
    ["[connection]", "id=dashcam-fallback-ap", "uuid=" + c.uuid, "type=wifi"]
  }

  function WifiLines(c: Credentials): seq<string> {
    ["autoconnect=false", "", "[wifi]", "ssid=" + c.ssid, "mode=ap", "", "[wifi-security]", "key-mgmt=wpa-psk",
     "psk=" + c.secret, ""]
  }

  function AddressLines(): seq<string> {
    ["[ipv4]", "method=shared", "address1=192.168.50.1/24",
     "shared-dhcp-range=" + "192.168.50.20,192.168.50.100", "", "[ipv6]", "method=disabled"]
  }

  function Tail(c: Credentials): seq<string> {
    WifiLines(c) + AddressLines()
  }

  function Lines(c: Credentials, interface: string): seq<string> {
    Head(c) + [BINDING + interface] + Tail(c)
  }

  function Template(c: Credentials): string {
    Join(Lines(c, PLACEHOLDER))
  }

  function Required(c: Credentials): seq<string> {
    ["id=dashcam-fallback-ap", "uuid=" + c.uuid, "type=wifi", "autoconnect=false", "ssid=" + c.ssid, "mode=ap",
     "key-mgmt=wpa-psk", "psk=" + c.secret, "method=shared", "address1=192.168.50.1/24",
     "shared-dhcp-range=" + "192.168.50.20,192.168.50.100", "method=disabled"]
  }

  predicate Validates(profile: string, c: Credentials, placeholder: bool) {
    && Count(profile, PLACEHOLDER) == (if placeholder then 1 else 0)
    && '\0' !in profile && '\r' !in profile
    && !Contains(Replace(profile, PLACEHOLDER, ""), "${")
    && (forall i | 0 <= i < |Required(c)| :: Contains(profile, Required(c)[i]))
    && var bindings := Bindings(SplitLines(profile, []));
       |bindings| == 1 && (if placeholder then bindings[0] == PLACEHOLDER else SafeInterface(bindings[0]))
  }

  /** `profile_for_interface`; None stands for its refusal. */
  function ProfileFor(c: Credentials, interface: string): Option<string> {
    if !SafeInterface(interface) || !Validates(Template(c), c, true) then None
    else
      var profile := Replace(Template(c), PLACEHOLDER, interface);
      if Validates(profile, c, false) then Some(profile) else None
  }

  // ---------- plain text ----------

  predicate Plain(ch: char) {
    ' ' <= ch <= '~' && ch != '$'
  }

  predicate PlainText(s: string) {
    forall i | 0 <= i < |s| :: Plain(s[i]) || s[i] == '\n'
  }

  predicate PlainLine(s: string) {
    forall i | 0 <= i < |s| :: Plain(s[i])
  }

  lemma ReplaceStep(ch: char, t: string, p: string, r: string)
    requires p != [] && ch != p[0]
    ensures Replace([ch] + t, p, r) == [ch] + Replace(t, p, r) && Count([ch] + t, p) == Count(t, p)
  {
    var s := [ch] + t;
    assert s[1..] == t;
    if |s| >= |p| {
      assert s[..|p|][0] == ch;
    } else {
      ShortText(t, p, r);
    }
  }

  lemma {:induction false} ReplaceAfter(a: string, b: string, p: string, r: string)
    requires p != [] && p[0] == '$' && PlainText(a)
    ensures Replace(a + b, p, r) == a + Replace(b, p, r)
    ensures Count(a + b, p) == Count(b, p)
  {
    if a == [] {
      assert a + b == b;
    } else {
      assert a + b == [a[0]] + (a[1..] + b);
      ReplaceAfter(a[1..], b, p, r);
      ReplaceStep(a[0], a[1..] + b, p, r);
      assert a == [a[0]] + a[1..];
    }
  }

  lemma ShortText(s: string, p: string, r: string)
    requires p != [] && |s| < |p|
    ensures Replace(s, p, r) == s && Count(s, p) == 0
  {
  }

  lemma NothingToReplace(s: string, p: string, r: string)
    requires p != [] && p[0] == '$' && PlainText(s)
    ensures Replace(s, p, r) == s && Count(s, p) == 0
  {
    ReplaceAfter(s, [], p, r);
    assert s + [] == s;
  }

  /** A lone placeholder in plain text is found once and replaced. */
  lemma ReplaceOnce(a: string, b: string, r: string)
    requires PlainText(a) && PlainText(b)
    ensures Replace(a + (PLACEHOLDER + b), PLACEHOLDER, r) == a + (r + b)
    ensures Count(a + (PLACEHOLDER + b), PLACEHOLDER) == 1
  {
    ReplaceAfter(a, PLACEHOLDER + b, PLACEHOLDER, r);
    NothingToReplace(b, PLACEHOLDER, r);
    var s := PLACEHOLDER + b;
    assert s[..|PLACEHOLDER|] == PLACEHOLDER && s[|PLACEHOLDER|..] == b;
  }

  lemma ContainsFirst(s: string, p: string)
    requires p != []
    ensures Contains(s, p) ==> p[0] in s
  {
    if Contains(s, p) {
      var i :| 0 <= i <= |s| && StartsWith(s[i..], p);
      assert s[i..][..|p|][0] == s[i];
    }
  }

  lemma NoDollar(s: string)
    requires PlainText(s)
    ensures !Contains(s, "${") && '\0' !in s && '\r' !in s
  {
    ContainsFirst(s, "${");
  }

  // ---------- lines ----------

  lemma {:induction false} SplitOneLine(line: string, rest: string, read: string)
    requires forall i | 0 <= i < |line| :: !LineEnd(line[i])
    ensures SplitLines(line + "\n" + rest, read) == [read + line] + SplitLines(rest, [])
  {
    var s := line + "\n" + rest;
    if line == [] {
      assert s[0] == '\n' && s[1..] == rest && read + line == read;
    } else {
      assert s[0] == line[0] && s[1..] == line[1..] + "\n" + rest;
      SplitOneLine(line[1..], rest, read + [line[0]]);
      assert read + [line[0]] + line[1..] == read + line;
    }
  }

  lemma {:induction false} SplitJoin(lines: seq<string>)
    requires forall k | 0 <= k < |lines| :: forall i | 0 <= i < |lines[k]| :: !LineEnd(lines[k][i])
    ensures SplitLines(Join(lines), []) == lines
  {
    if lines != [] {
      SplitOneLine(lines[0], Join(lines[1..]), []);
      SplitJoin(lines[1..]);
      assert [] + lines[0] == lines[0];
    }
  }

  lemma {:induction false} JoinAppend(a: seq<string>, b: seq<string>)
    ensures Join(a + b) == Join(a) + Join(b)
  {
    if a == [] {
      assert a + b == b;
    } else {
      assert (a + b)[1..] == a[1..] + b && (a + b)[0] == a[0];
      JoinAppend(a[1..], b);
      assert a[0] + "\n" + (Join(a[1..]) + Join(b)) == a[0] + "\n" + Join(a[1..]) + Join(b);
    }
  }

  lemma {:induction false} JoinPlain(lines: seq<string>)
    requires forall k | 0 <= k < |lines| :: PlainLine(lines[k])
    ensures PlainText(Join(lines))
  {
    if lines != [] {
      JoinPlain(lines[1..]);
    }
  }

  lemma JoinContains(a: seq<string>, line: string, b: seq<string>)
    ensures Contains(Join(a + ([line] + b)), line)
  {
    JoinAppend(a, [line] + b);
    JoinAppend([line], b);
    assert Join([line]) == line + "\n" + Join([line][1..]) == line + "\n";
    var s := Join(a + ([line] + b));
    assert s == Join(a) + (line + "\n" + Join(b));
    assert s[|Join(a)|..] == line + "\n" + Join(b);
    assert StartsWith(s[|Join(a)|..], line);
  }

  lemma TakeApart<T>(s: seq<T>, k: nat)
    requires k < |s|
    ensures s == s[..k] + ([s[k]] + s[k + 1..])
  {
  }

  lemma ContainsLine(lines: seq<string>, k: nat)
    requires k < |lines|
    ensures Contains(Join(lines), lines[k])
  {
    TakeApart(lines, k);
    JoinContains(lines[..k], lines[k], lines[k + 1..]);
  }

  lemma {:induction false} BindingsAppend(a: seq<string>, b: seq<string>)
    ensures Bindings(a + b) == Bindings(a) + Bindings(b)
  {
    if a == [] {
      assert a + b == b;
    } else {
      assert (a + b)[1..] == a[1..] + b && (a + b)[0] == a[0];
      BindingsAppend(a[1..], b);
      var first := if StartsWith(a[0], BINDING) then [a[0][|BINDING|..]] else [];
      assert first + (Bindings(a[1..]) + Bindings(b)) == first + Bindings(a[1..]) + Bindings(b);
    }
  }

  lemma {:induction false} NoBindings(lines: seq<string>)
    requires forall k | 0 <= k < |lines| :: !StartsWith(lines[k], BINDING)
    ensures Bindings(lines) == []
  {
    if lines != [] {
      NoBindings(lines[1..]);
    }
  }

  // ---------- the profile's own text ----------

  lemma CredentialsArePlain(c: Credentials)
    requires c.Valid()
    ensures PlainLine(c.ssid) && PlainLine(c.secret) && PlainLine(c.uuid)
  {
    assert forall i | 0 <= i < 8 :: c.ssid[i] == c.ssid[..8][i];
    assert PlainLine("Dashcam-");
  }

  lemma PlainConcat(a: string, b: string)
    requires PlainLine(a) && PlainLine(b)
    ensures PlainLine(a + b)
  {
  }

  lemma HeadIsPlain(c: Credentials)
    requires c.Valid()
    ensures forall k | 0 <= k < |Head(c)| :: PlainLine(Head(c)[k])
  {
    CredentialsArePlain(c);
    PlainConcat("uuid=", c.uuid);
    assert PlainLine("[connection]") && PlainLine("id=dashcam-fallback-ap") && PlainLine("type=wifi");
  }

  lemma WifiLinesArePlain(c: Credentials)
    requires c.Valid()
    ensures forall k | 0 <= k < |WifiLines(c)| :: PlainLine(WifiLines(c)[k])
  {
    CredentialsArePlain(c);
    PlainConcat("ssid=", c.ssid);
    PlainConcat("psk=", c.secret);
    assert PlainLine("autoconnect=false") && PlainLine("") && PlainLine("[wifi]") && PlainLine("mode=ap");
    assert PlainLine("[wifi-security]") && PlainLine("key-mgmt=wpa-psk");
  }

  lemma AddressLinesArePlain()
    ensures forall k | 0 <= k < |AddressLines()| :: PlainLine(AddressLines()[k])
  {
    assert PlainLine("[ipv4]") && PlainLine("method=shared") && PlainLine("address1=192.168.50.1/24") && PlainLine("");
    assert PlainLine("[ipv6]") && PlainLine("method=disabled");
    DhcpRangeIsPlain();
  }

  lemma DhcpRangeIsPlain()
    ensures PlainLine("shared-dhcp-range=" + "192.168.50.20,192.168.50.100")
  {
    PlainConcat("shared-dhcp-range=", "192.168.50.20,192.168.50.100");
  }

  lemma TailIsPlain(c: Credentials)
    requires c.Valid()
    ensures forall k | 0 <= k < |Tail(c)| :: PlainLine(Tail(c)[k])
  {
    WifiLinesArePlain(c);
    AddressLinesArePlain();
    var a, b := WifiLines(c), AddressLines();
    forall k | 0 <= k < |a + b|
      ensures PlainLine((a + b)[k])
    {
      assert (a + b)[k] == if k < |a| then a[k] else b[k - |a|];
    }
  }

  lemma BindingStart(s: string)
    ensures StartsWith(s, BINDING) ==> |s| >= 2 && s[0] == 'i' && s[1] == 'n'
  {
    if StartsWith(s, BINDING) {
      assert s[..|BINDING|][0] == s[0] && s[..|BINDING|][1] == s[1];
    }
  }

  lemma OnlyOneBinding(c: Credentials)
    ensures forall k | 0 <= k < |Head(c)| :: !StartsWith(Head(c)[k], BINDING)
    ensures forall k | 0 <= k < |Tail(c)| :: !StartsWith(Tail(c)[k], BINDING)
  {
    forall k | 0 <= k < |Head(c)|
      ensures !StartsWith(Head(c)[k], BINDING)
    {
      BindingStart(Head(c)[k]);
    }
    assert ("ssid=" + c.ssid)[0] == 's' && ("psk=" + c.secret)[0] == 'p';
    forall k | 0 <= k < |Tail(c)|
      ensures !StartsWith(Tail(c)[k], BINDING)
    {
      BindingStart(Tail(c)[k]);
    }
  }

  // ---------- printing never refuses ----------

  lemma TextAround(c: Credentials, interface: string)
    ensures Join(Lines(c, interface)) == (Join(Head(c)) + BINDING) + (interface + ("\n" + Join(Tail(c))))
  {
    JoinAppend(Head(c), [BINDING + interface] + Tail(c));
    JoinAppend([BINDING + interface], Tail(c));
    assert Head(c) + ([BINDING + interface] + Tail(c)) == Lines(c, interface);
    assert Join([BINDING + interface]) == BINDING + interface + "\n" + Join([BINDING + interface][1..]) ==
           BINDING + interface + "\n";
  }

  lemma AroundIsPlain(c: Credentials)
    requires c.Valid()
    ensures PlainText(Join(Head(c)) + BINDING) && PlainText("\n" + Join(Tail(c)))
  {
    HeadIsPlain(c);
    TailIsPlain(c);
    JoinPlain(Head(c));
    JoinPlain(Tail(c));
    assert PlainLine(BINDING);
  }

  lemma BindingIsRead(c: Credentials, interface: string)
    requires c.Valid() && forall i | 0 <= i < |interface| :: Plain(interface[i]) || interface[i] == '$'
    ensures SplitLines(Join(Lines(c, interface)), []) == Lines(c, interface)
    ensures Bindings(Lines(c, interface)) == [interface]
  {
    HeadIsPlain(c);
    TailIsPlain(c);
    SplitJoin(Lines(c, interface));
    OnlyOneBinding(c);
    BindingsAppend(Head(c), [BINDING + interface] + Tail(c));
    BindingsAppend([BINDING + interface], Tail(c));
    assert Head(c) + ([BINDING + interface] + Tail(c)) == Lines(c, interface);
    NoBindings(Head(c));
    NoBindings(Tail(c));
    assert (BINDING + interface)[..|BINDING|] == BINDING && (BINDING + interface)[|BINDING|..] == interface;
    assert [BINDING + interface][1..] == [];
  }

  lemma HasRequired(c: Credentials, interface: string)
    ensures forall i | 0 <= i < |Required(c)| :: Contains(Join(Lines(c, interface)), Required(c)[i])
  {
    var lines := Lines(c, interface);
    forall i | 0 <= i < |Required(c)|
      ensures Contains(Join(lines), Required(c)[i])
    {
      var where := [1, 2, 3, 5, 8, 9, 12, 13, 16, 17, 18, 21];
      assert lines[where[i]] == Required(c)[i];
      ContainsLine(lines, where[i]);
    }
  }

  lemma InterfaceIsPlain(interface: string)
    requires SafeInterface(interface)
    ensures PlainLine(interface)
  {
  }

  lemma NoControlCharacters(a: string, b: string)
    requires PlainText(a) && PlainText(b)
    ensures '\0' !in a + (PLACEHOLDER + b) && '\r' !in a + (PLACEHOLDER + b)
  {
    NoDollar(a);
    NoDollar(b);
    assert '\0' !in PLACEHOLDER && '\r' !in PLACEHOLDER;
  }

  lemma NothingUnresolved(a: string, b: string)
    requires PlainText(a) && PlainText(b)
    ensures Count(a + (PLACEHOLDER + b), PLACEHOLDER) == 1
    ensures !Contains(Replace(a + (PLACEHOLDER + b), PLACEHOLDER, ""), "${")
  {
    ReplaceOnce(a, b, "");
    assert "" + b == b && PlainText(a + b);
    NoDollar(a + b);
  }

  lemma TemplateValidates(c: Credentials)
    requires c.Valid()
    ensures Validates(Template(c), c, true)
  {
    var a, b := Join(Head(c)) + BINDING, "\n" + Join(Tail(c));
    TextAround(c, PLACEHOLDER);
    AroundIsPlain(c);
    NoControlCharacters(a, b);
    NothingUnresolved(a, b);
    HasRequired(c, PLACEHOLDER);
    PlaceholderIsRead(c);
  }

  lemma PlaceholderIsRead(c: Credentials)
    requires c.Valid()
    ensures Bindings(SplitLines(Template(c), [])) == [PLACEHOLDER]
  {
    assert forall i | 0 <= i < |PLACEHOLDER| :: Plain(PLACEHOLDER[i]) || PLACEHOLDER[i] == '$';
    BindingIsRead(c, PLACEHOLDER);
  }

  lemma FilledProfileValidates(c: Credentials, interface: string)
    requires c.Valid() && SafeInterface(interface)
    ensures Replace(Template(c), PLACEHOLDER, interface) == Join(Lines(c, interface))
    ensures Validates(Join(Lines(c, interface)), c, false)
  {
    var a, b := Join(Head(c)) + BINDING, "\n" + Join(Tail(c));
    TextAround(c, PLACEHOLDER);
    TextAround(c, interface);
    AroundIsPlain(c);
    InterfaceIsPlain(interface);
    ReplaceOnce(a, b, interface);
    var profile := Join(Lines(c, interface));
    assert PlainText(profile);
    NothingToReplace(profile, PLACEHOLDER, "");
    NoDollar(profile);
    HasRequired(c, interface);
    BindingIsRead(c, interface);
  }

  /** For valid credentials and a safe interface the profile is always printed, and it is the template filled in. */
  lemma NeverRefuses(c: Credentials, interface: string)
    requires c.Valid() && SafeInterface(interface)
    ensures ProfileFor(c, interface) == Some(Join(Lines(c, interface)))
  {
    TemplateValidates(c);
    FilledProfileValidates(c, interface);
  }

  // ---------- reading back ----------

  /** The interface a stored profile binds, if the profile is exactly what the credentials would print. */
  function PersistedInterface(c: Credentials, profile: string): Option<string> {
    var bindings := Bindings(SplitLines(profile, []));
    if |bindings| == 1 && ProfileFor(c, bindings[0]) == Some(profile) then Some(bindings[0]) else None
  }

  lemma CancelPrefix(p: string, a: string, b: string)
    requires p + a == p + b
    ensures a == b
  {
    assert (p + a)[|p|..] == a && (p + b)[|p|..] == b;
  }

  /** A printed profile determines the credentials and the interface. */
  lemma ProfilesAreDistinct(c1: Credentials, i1: string, c2: Credentials, i2: string)
    requires c1.Valid() && c2.Valid() && SafeInterface(i1) && SafeInterface(i2)
    requires Join(Lines(c1, i1)) == Join(Lines(c2, i2))
    ensures c1 == c2 && i1 == i2
  {
    InterfaceIsPlain(i1);
    InterfaceIsPlain(i2);
    BindingIsRead(c1, i1);
    BindingIsRead(c2, i2);
    var l1, l2 := Lines(c1, i1), Lines(c2, i2);
    assert l1 == l2;
    assert l1[2] == "uuid=" + c1.uuid && l2[2] == "uuid=" + c2.uuid;
    assert l1[4] == BINDING + i1 && l2[4] == BINDING + i2;
    assert l1[8] == "ssid=" + c1.ssid && l2[8] == "ssid=" + c2.ssid;
    assert l1[13] == "psk=" + c1.secret && l2[13] == "psk=" + c2.secret;
    CancelPrefix("uuid=", c1.uuid, c2.uuid);
    CancelPrefix(BINDING, i1, i2);
    CancelPrefix("ssid=", c1.ssid, c2.ssid);
    CancelPrefix("psk=", c1.secret, c2.secret);
  }

  /** A later process gets the interface back from a written profile with the same credentials, and with no others. */
  lemma ReadsBackExactly(c: Credentials, interface: string, other: Credentials)
    requires c.Valid() && SafeInterface(interface) && other.Valid()
    ensures ProfileFor(c, interface).Some?
    ensures PersistedInterface(other, ProfileFor(c, interface).value) == if other == c then Some(interface) else None
  {
    NeverRefuses(c, interface);
    NeverRefuses(other, interface);
    InterfaceIsPlain(interface);
    BindingIsRead(c, interface);
    if Join(Lines(other, interface)) == Join(Lines(c, interface)) {
      ProfilesAreDistinct(other, interface, c, interface);
    }
  }

  // ---------- stored credentials ----------

  /** The private credential file: the first schema had no profile UUID. */
  datatype Stored = V1(ssid: string, secret: string) | V2(ssid: string, secret: string, uuid: string) | Malformed

  function ToStored(c: Credentials): Stored {
    V2(c.ssid, c.secret, c.uuid)
  }

  /** What loading asks for: the credentials, and whether they must first be written in the current schema. */
  datatype Loaded = Refused | Use(credentials: Credentials) | WriteThenUse(credentials: Credentials)

  /** `derive` is the name-based UUID of the first schema's values; `generated` are newly made ones. */
  function Load(file: Option<Stored>, safe: bool, derive: (string, string) -> string, generated: Credentials): Loaded {
    match file
    case None => WriteThenUse(generated)
    case Some(stored) =>
      if !safe then Refused
      else
        match stored
        case Malformed => Refused
        case V1(ssid, secret) =>
          var c := Credentials(ssid, secret, derive(ssid, secret));
          if c.Valid() then WriteThenUse(c) else Refused
        case V2(ssid, secret, uuid) =>
          var c := Credentials(ssid, secret, uuid);
          if c.Valid() then Use(c) else Refused
  }

  /**
    Whatever is loaded is valid; what has been written is read again unchanged and not written again; and migrating
    the first schema keeps the network's name and secret.
   */
  lemma LoadingIsStable(file: Option<Stored>, safe: bool, derive: (string, string) -> string, generated: Credentials,
          later: Credentials)
    requires generated.Valid()
    ensures var l := Load(file, safe, derive, generated);
            && (!l.Refused? ==>
                  && l.credentials.Valid()
                  && Load(Some(ToStored(l.credentials)), true, derive, later) == Use(l.credentials))
            && (l.WriteThenUse? && file.Some? ==>
                  file.value == V1(l.credentials.ssid, l.credentials.secret)
                  && l.credentials.uuid == derive(l.credentials.ssid, l.credentials.secret))
            && (l.Use? ==> file == Some(ToStored(l.credentials)))
  {
  }
}
