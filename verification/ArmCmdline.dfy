/** Arming the kernel command line: one token is appended to a file, byte for byte, after an exact backup is made. */
module ArmCmdline {
  import opened Common

  const MAX_CMDLINE := 16 * 1024

  function Ascii(s: string): (b: Bytes)
    requires forall i | 0 <= i < |s| :: s[i] < 128 as char
    ensures |b| == |s| && forall i | 0 <= i < |s| :: b[i] as int == s[i] as int
  {
    seq(|s|, i requires 0 <= i < |s| => s[i] as int as byte)
  }

  const DEV_TRIGGER: Bytes := Ascii("dashcam.bootstrap=ssh-dev-v1")
  const RELEASE_TRIGGER: Bytes := Ascii("dashcam.bootstrap=v1")
  const RESIZE_TOKEN: Bytes := Ascii("resize")
  const ROOT_PREFIX: Bytes := Ascii("root=PARTUUID=")
  const NEWLINE: byte := 10
  const RETURN: byte := 13
  const BLANK: byte := 32

  /** ASCII whitespace, as `bytes.split` takes it. */
  predicate Space(b: byte) {
    9 <= b <= 13 || b == 32
  }

  /** `value.split()` */
  function Tokens(value: Bytes): seq<Bytes> {
    if value == [] then []
    else
      var (p, last) := (value[..|value| - 1], value[|value| - 1]);
      var ts := Tokens(p);
      if Space(last) then ts
      else if p == [] || Space(p[|p| - 1]) || ts == [] then ts + [[last]]
      else ts[..|ts| - 1] + [ts[|ts| - 1] + [last]]
  }

  function Count(tokens: seq<Bytes>, token: Bytes): nat {
    if tokens == [] then 0
    else Count(tokens[..|tokens| - 1], token) + (if tokens[|tokens| - 1] == token then 1 else 0)
  }

  function Occurrences(value: Bytes, b: byte): nat {
    if value == [] then 0
    else Occurrences(value[..|value| - 1], b) + (if value[|value| - 1] == b then 1 else 0)
  }

  predicate EndsInNewline(value: Bytes) {
    value != [] && value[|value| - 1] == NEWLINE
  }

  function Body(value: Bytes): Bytes {
    if EndsInNewline(value) then value[..|value| - 1] else value
  }

  predicate NamesRoot(token: Bytes) {
    ROOT_PREFIX < token
  }

  /** What `_read_cmdline` accepts. */
  predicate Readable(value: Bytes) {
    && |value| <= MAX_CMDLINE
    && RETURN !in value
    && Occurrences(value, NEWLINE) <= 1
    && (NEWLINE in value ==> EndsInNewline(value))
    && (forall i | 0 <= i < |Body(value)| :: Body(value)[i] < 128)
    && (exists i | 0 <= i < |Tokens(Body(value))| :: NamesRoot(Tokens(Body(value))[i]))
  }

  predicate Unarmed(tokens: seq<Bytes>) {
    Count(tokens, RESIZE_TOKEN) == 0 && Count(tokens, RELEASE_TRIGGER) == 0 && Count(tokens, DEV_TRIGGER) == 0
  }

  predicate Armed(tokens: seq<Bytes>) {
    Count(tokens, RESIZE_TOKEN) == 0 && Count(tokens, RELEASE_TRIGGER) == 0 && Count(tokens, DEV_TRIGGER) == 1
  }

  function Proposed(before: Bytes): Bytes {
    Body(before) + (if Body(before) == [] then [] else [BLANK]) + DEV_TRIGGER
    + (if EndsInNewline(before) then [NEWLINE] else [])
  }

  // ---------- the round trip ----------

  /** One more letter lengthens the last token, one after whitespace starts a new one. */
  lemma TokensNext(value: Bytes, letter: byte)
    requires !Space(letter)
    ensures var ts := Tokens(value);
            Tokens(value + [letter])
            == if value == [] || Space(value[|value| - 1]) || ts == [] then ts + [[letter]]
               else ts[..|ts| - 1] + [ts[|ts| - 1] + [letter]]
  {
    assert (value + [letter])[..|value|] == value;
  }

  lemma TokensBlank(value: Bytes)
    ensures Tokens(value + [BLANK]) == Tokens(value)
  {
    assert (value + [BLANK])[..|value|] == value;
  }

  lemma Assoc(a: Bytes, b: Bytes, c: Bytes)
    ensures a + b + c == a + (b + c)
  {
  }

  /** One more letter of a word that follows a blank. */
  lemma {:induction false} TokensAppendLetter(body: Bytes, word: Bytes, letter: byte)
    requires !Space(letter) && (forall i | 0 <= i < |word| :: !Space(word[i]))
    requires word == [] ==> Tokens(body + [BLANK] + word) == Tokens(body)
    requires word != [] ==> Tokens(body + [BLANK] + word) == Tokens(body) + [word]
    ensures Tokens(body + [BLANK] + (word + [letter])) == Tokens(body) + [word + [letter]]
  {
    Assoc(body + [BLANK], word, [letter]);
    TokensNext(body + [BLANK] + word, letter);
    if word == [] {
      assert body + [BLANK] + word == body + [BLANK] && word + [letter] == [letter];
    } else {
      LastOfThree(body, [BLANK], word);
      var ts := Tokens(body) + [word];
      assert ts[..|ts| - 1] == Tokens(body) && ts[|ts| - 1] == word;
    }
  }

  lemma {:induction false} TokensAppendBlank(body: Bytes, word: Bytes)
    requires word != [] && forall i | 0 <= i < |word| :: !Space(word[i])
    ensures Tokens(body + [BLANK] + word) == Tokens(body) + [word]
  {
    var shorter, letter := word[..|word| - 1], word[|word| - 1];
    assert word == shorter + [letter];
    if shorter == [] {
      TokensBlank(body);
      assert body + [BLANK] + shorter == body + [BLANK];
    } else {
      assert forall i | 0 <= i < |shorter| :: shorter[i] == word[i];
      TokensAppendBlank(body, shorter);
    }
    TokensAppendLetter(body, shorter, letter);
  }

  lemma LastOfThree(a: Bytes, b: Bytes, c: Bytes)
    requires c != []
    ensures var s := a + b + c; s != [] && s[|s| - 1] == c[|c| - 1]
  {
  }

  lemma {:induction false} OccurrencesAppend(a: Bytes, b: Bytes, x: byte)
    ensures Occurrences(a + b, x) == Occurrences(a, x) + Occurrences(b, x)
  {
    if b == [] {
      assert a + b == a;
    } else {
      assert (a + b)[..|a + b| - 1] == a + b[..|b| - 1];
      OccurrencesAppend(a, b[..|b| - 1], x);
    }
  }

  lemma {:induction false} NoOccurrence(a: Bytes, x: byte)
    ensures Occurrences(a, x) == 0 <==> x !in a
  {
    if a != [] {
      NoOccurrence(a[..|a| - 1], x);
      assert a == a[..|a| - 1] + [a[|a| - 1]];
    }
  }

  lemma TriggerIsOneWord()
    ensures DEV_TRIGGER != [] && forall i | 0 <= i < |DEV_TRIGGER| :: !Space(DEV_TRIGGER[i]) && DEV_TRIGGER[i] < 128
    ensures NEWLINE !in DEV_TRIGGER && RETURN !in DEV_TRIGGER
    ensures DEV_TRIGGER != RESIZE_TOKEN && DEV_TRIGGER != RELEASE_TRIGGER
    ensures |DEV_TRIGGER| == 28
  {
    var s := "dashcam.bootstrap=ssh-dev-v1";
    assert forall i | 0 <= i < |s| :: 33 as char <= s[i] < 128 as char;
  }

  lemma BodyHasNoNewline(before: Bytes)
    requires Occurrences(before, NEWLINE) <= 1 && (NEWLINE in before ==> EndsInNewline(before))
    ensures NEWLINE !in Body(before)
    ensures before == Body(before) + (if EndsInNewline(before) then [NEWLINE] else [])
  {
    NoOccurrence(Body(before), NEWLINE);
  }

  lemma CountAppend(ts: seq<Bytes>, t: Bytes, x: Bytes)
    ensures Count(ts + [t], x) == Count(ts, x) + (if t == x then 1 else 0)
  {
    assert (ts + [t])[..|ts|] == ts;
  }

  lemma RootStaysNamed(ts: seq<Bytes>, t: Bytes)
    requires exists i | 0 <= i < |ts| :: NamesRoot(ts[i])
    ensures exists i | 0 <= i < |ts + [t]| :: NamesRoot((ts + [t])[i])
  {
    var i :| 0 <= i < |ts| && NamesRoot(ts[i]);
    assert NamesRoot((ts + [t])[i]);
  }

  /** The proposed bytes are the old body, a blank, the trigger, and the old newline if there was one. */
  lemma {:induction false} ProposedIs(before: Bytes)
    requires Readable(before)
    ensures var after := Proposed(before);
            && Body(after) == Body(before) + [BLANK] + DEV_TRIGGER
            && EndsInNewline(after) == EndsInNewline(before)
            && after == Body(after) + (if EndsInNewline(before) then [NEWLINE] else [])
            && |after| == |before| + 29
  {
    TriggerIsOneWord();
    BodyHasNoNewline(before);
    var armed := Body(before) + [BLANK] + DEV_TRIGGER;
    LastOfThree(Body(before), [BLANK], DEV_TRIGGER);
    assert Proposed(before) == armed + (if EndsInNewline(before) then [NEWLINE] else []);
    assert armed[|armed| - 1] != NEWLINE;
  }

  lemma {:induction false} ProposedIsOneAsciiLine(before: Bytes)
    requires Readable(before)
    ensures var after := Proposed(before);
            && RETURN !in after
            && Occurrences(after, NEWLINE) <= 1
            && (NEWLINE in after ==> EndsInNewline(after))
            && (forall i | 0 <= i < |Body(after)| :: Body(after)[i] < 128)
  {
    ProposedIs(before);
    TriggerIsOneWord();
    BodyHasNoNewline(before);
    var armed, end := Body(Proposed(before)), if EndsInNewline(before) then [NEWLINE] else [];
    NoOccurrence(armed, NEWLINE);
    OccurrencesAppend(armed, end, NEWLINE);
    assert Occurrences(end, NEWLINE) <= 1 by {
      if end != [] {
        assert end[..0] == [];
      }
    }
  }

  lemma {:induction false} ProposedTokens(before: Bytes)
    requires Readable(before)
    ensures Tokens(Body(Proposed(before))) == Tokens(Body(before)) + [DEV_TRIGGER]
  {
    ProposedIs(before);
    TriggerIsOneWord();
    TokensAppendBlank(Body(before), DEV_TRIGGER);
  }

  lemma {:induction false} TriggerCounts(ts: seq<Bytes>)
    requires Unarmed(ts)
    ensures Armed(ts + [DEV_TRIGGER]) && !Unarmed(ts + [DEV_TRIGGER])
  {
    TriggerIsOneWord();
    CountAppend(ts, DEV_TRIGGER, RESIZE_TOKEN);
    CountAppend(ts, DEV_TRIGGER, RELEASE_TRIGGER);
    CountAppend(ts, DEV_TRIGGER, DEV_TRIGGER);
  }

  lemma {:induction false} ReadableAfter(before: Bytes)
    requires Readable(before)
    ensures Readable(Proposed(before)) <==> |before| + 29 <= MAX_CMDLINE
  {
    ProposedIs(before);
    ProposedIsOneAsciiLine(before);
    ProposedTokens(before);
    RootStaysNamed(Tokens(Body(before)), DEV_TRIGGER);
  }

  /**
    For every readable, unarmed command line, the proposed one has the same tokens and the trigger behind them, and
    the same bytes up to the inserted ones; and it can be read back, verified, and not armed again, exactly if it
    still fits the size bound.
   */
  lemma {:induction false} ArmingRoundTrip(before: Bytes)
    requires Readable(before) && Unarmed(Tokens(Body(before)))
    ensures var after := Proposed(before);
            && Tokens(Body(after)) == Tokens(Body(before)) + [DEV_TRIGGER]
            && |after| == |before| + 29
            && Body(before) <= after && EndsInNewline(after) == EndsInNewline(before)
            && (Readable(after) <==> |before| + 29 <= MAX_CMDLINE)
            && Armed(Tokens(Body(after))) && !Unarmed(Tokens(Body(after)))
  {
    ProposedIs(before);
    ProposedTokens(before);
    TriggerCounts(Tokens(Body(before)));
    ReadableAfter(before);
  }

  // ---------- a line that no longer fits ----------

  lemma {:induction false} OneWord(word: Bytes)
    requires word != [] && forall i | 0 <= i < |word| :: !Space(word[i])
    ensures Tokens(word) == [word]
  {
    var shorter, letter := word[..|word| - 1], word[|word| - 1];
    TokensNext(shorter, letter);
    assert word == shorter + [letter];
    if shorter != [] {
      assert forall i | 0 <= i < |shorter| :: shorter[i] == word[i];
      OneWord(shorter);
      assert [shorter][..0] == [];
    }
  }

  /** The bound's worth of bytes: a root name and nothing else. */
  function FullLine(): Bytes {
    ROOT_PREFIX + seq(MAX_CMDLINE - |ROOT_PREFIX|, i => 97)
  }

  lemma {:induction false} FullLineIsOneWord()
    ensures var line := FullLine();
            |line| == MAX_CMDLINE && NamesRoot(line) && forall i | 0 <= i < |line| :: 33 <= line[i] < 128
  {
    var s := "root=PARTUUID=";
    assert |s| == 14 && forall i | 0 <= i < |s| :: 33 as char <= s[i] < 128 as char;
    var line := FullLine();
    assert forall i | 0 <= i < |ROOT_PREFIX| :: line[i] == ROOT_PREFIX[i];
  }

  lemma {:induction false} CountOne(word: Bytes, x: Bytes)
    requires word != x
    ensures Count([word], x) == 0
  {
    assert [word][..0] == [];
  }

  /** It is readable and unarmed, and armed it no longer fits. */
  lemma {:induction false} FullLineFitsUnarmed()
    ensures var line := FullLine();
            Readable(line) && Unarmed(Tokens(Body(line))) && |line| + 29 > MAX_CMDLINE
  {
    var line := FullLine();
    FullLineIsOneWord();
    OneWord(line);
    NoOccurrence(line, NEWLINE);
    assert Body(line) == line && NamesRoot(Tokens(line)[0]);
    assert |"resize"| == 6 && |"dashcam.bootstrap=v1"| == 20 && |"dashcam.bootstrap=ssh-dev-v1"| == 28;
    CountOne(line, RESIZE_TOKEN);
    CountOne(line, RELEASE_TRIGGER);
    CountOne(line, DEV_TRIGGER);
  }
}
