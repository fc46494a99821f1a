/**
  The search for an H.264 IDR unit in an access unit: byte-stream start codes (section B.1 of ITU-T H.264; type 5 by
  Table 7-1 of section 7.4.1), then 4-byte length prefixes (section 5.2.3 of ISO/IEC 14496-15:2004).
 */
module IdrScan {
  import opened Common

  const IDR := 5

  predicate IsIdr(b: byte) {
    b % 0x20 == IDR as byte
  }

  // ---------- start codes ----------

  predicate Occurs(payload: Bytes, marker: Bytes, i: nat) {
    i + |marker| <= |payload| && payload[i..i + |marker|] == marker
  }

  const THREE_BYTE_MARKER: Bytes := [0, 0, 1]
  const FOUR_BYTE_MARKER: Bytes := [0, 0, 0, 1]

  /** Some occurrence of the marker is followed by the header of an IDR unit. */
  ghost predicate MarkedIdr(payload: Bytes, marker: Bytes) {
    exists i: nat :: Occurs(payload, marker, i) && i + |marker| < |payload| && IsIdr(payload[i + |marker|])
  }

  /** Two occurrences of the marker never share a byte. */
  ghost predicate NeverOverlaps(marker: Bytes) {
    forall k | 0 < k < |marker| :: marker[k..] != marker[..|marker| - k]
  }

  lemma MarkersNeverOverlap()
    ensures NeverOverlaps(THREE_BYTE_MARKER) && NeverOverlaps(FOUR_BYTE_MARKER)
  {
    var m3, m4 := THREE_BYTE_MARKER, FOUR_BYTE_MARKER;
    forall k | 0 < k < 3
      ensures m3[k..] != m3[..3 - k]
    {
      assert m3[k..][3 - k - 1] == 1 && m3[..3 - k][3 - k - 1] == 0;
    }
    forall k | 0 < k < 4
      ensures m4[k..] != m4[..4 - k]
    {
      assert m4[k..][4 - k - 1] == 1 && m4[..4 - k][4 - k - 1] == 0;
    }
  }

  /** Only a marker that overlaps itself can occur again before an occurrence of it ends. */
  lemma OverlappingOccurrences(payload: Bytes, marker: Bytes, i: nat, j: nat)
    requires Occurs(payload, marker, i) && Occurs(payload, marker, j) && i < j < i + |marker|
    ensures !NeverOverlaps(marker)
  {
    var k, n := j - i, |marker|;
    assert payload[i..i + n][k..] == payload[j..i + n] == payload[j..j + n][..n - k];
  }

  /** Every 4-byte start code ends in a 3-byte one, so the second pass cannot find anything the first one missed. */
  lemma FourByteMarkersAddNothing(payload: Bytes)
    ensures MarkedIdr(payload, FOUR_BYTE_MARKER) ==> MarkedIdr(payload, THREE_BYTE_MARKER)
  {
    if MarkedIdr(payload, FOUR_BYTE_MARKER) {
      var i: nat :| Occurs(payload, FOUR_BYTE_MARKER, i) && i + 4 < |payload| && IsIdr(payload[i + 4]);
      assert payload[i + 1..i + 1 + 3] == payload[i..i + 4][1..] == THREE_BYTE_MARKER;
      assert Occurs(payload, THREE_BYTE_MARKER, i + 1);
    }
  }

  // ---------- length prefixes ----------

  function Size(payload: Bytes, o: nat): nat
    requires o + 4 <= |payload|
  {
    payload[o] as int * 0x100_0000 + payload[o + 1] as int * 0x1_0000 + payload[o + 2] as int * 0x100 +
        payload[o + 3] as int
  }

  /** A length-prefixed unit with at least one byte lies at `o`. */
  predicate UnitAt(payload: Bytes, o: nat) {
    o + 4 <= |payload| && 0 < Size(payload, o) && o + 4 + Size(payload, o) <= |payload|
  }

  /** Units follow each other from the start of the payload, and the last one of them is an IDR unit. */
  ghost predicate UnitsUpToIdr(payload: Bytes, at: seq<nat>) {
    && at != []
    && at[0] == 0
    && (forall i | 0 <= i < |at| :: UnitAt(payload, at[i]))
    && (forall i | 0 < i < |at| :: at[i] == at[i - 1] + 4 + Size(payload, at[i - 1]))
    && IsIdr(payload[at[|at| - 1] + 4])
  }

  ghost predicate LengthPrefixedIdr(payload: Bytes) {
    exists at: seq<nat> :: UnitsUpToIdr(payload, at)
  }

  /** The units a walk passes before `offset`. */
  ghost predicate Walked(payload: Bytes, at: seq<nat>, offset: nat) {
    && (forall i | 0 <= i < |at| :: UnitAt(payload, at[i]) && !IsIdr(payload[at[i] + 4]))
    && (forall i | 0 < i < |at| :: at[i] == at[i - 1] + 4 + Size(payload, at[i - 1]))
    && (if at == [] then offset == 0
        else at[0] == 0 && offset == at[|at| - 1] + 4 + Size(payload, at[|at| - 1]))
  }

  /** A walk that stands before malformed data, or the end, has no IDR unit to reach. */
  lemma {:induction false} DeadEnd(payload: Bytes, walked: seq<nat>, offset: nat, at: seq<nat>)
    requires Walked(payload, walked, offset) && !UnitAt(payload, offset)
    ensures !UnitsUpToIdr(payload, at)
  {
    if UnitsUpToIdr(payload, at) {
      SamePath(payload, walked, offset, at, |at| - 1);
    }
  }

  lemma {:induction false} SamePath(payload: Bytes, walked: seq<nat>, offset: nat, at: seq<nat>, i: nat)
    requires Walked(payload, walked, offset) && !UnitAt(payload, offset) && UnitsUpToIdr(payload, at) && i < |at|
    ensures i < |walked| && at[i] == walked[i]
  {
    if i > 0 {
      SamePath(payload, walked, offset, at, i - 1);
      assert at[i] == walked[i - 1] + 4 + Size(payload, walked[i - 1]);
    }
    assert UnitAt(payload, at[i]);
  }

  // ---------- the scan ----------

  /** `payload.find(marker, start)`, with -1 for none. */
  method Find(payload: Bytes, marker: Bytes, start: nat) returns (index: int)
    requires start <= |payload|
    ensures index >= 0 ==> start <= index && Occurs(payload, marker, index)
    ensures index >= 0 ==> forall i: nat | start <= i < index :: !Occurs(payload, marker, i)
    ensures index < 0 ==> forall i: nat | start <= i :: !Occurs(payload, marker, i)
  {
    var i := start;
    while i + |marker| <= |payload|
      invariant start <= i
      invariant forall j: nat | start <= j < i :: !Occurs(payload, marker, j)
    {
      if payload[i..i + |marker|] == marker {
        return i;
      }
      i := i + 1;
    }
    index := -1;
  }

  method ScanFor(payload: Bytes, marker: Bytes) returns (found: bool)
    requires marker != [] && NeverOverlaps(marker)
    ensures found <==> MarkedIdr(payload, marker)
  {
    var start := 0;
    var index := Find(payload, marker, start);
    while index >= 0
      invariant start <= |payload|
      invariant index >= 0 ==> start <= index && Occurs(payload, marker, index)
      invariant index >= 0 ==> forall i: nat | start <= i < index :: !Occurs(payload, marker, i)
      invariant index < 0 ==> forall i: nat | start <= i :: !Occurs(payload, marker, i)
      invariant forall i: nat | i < start && Occurs(payload, marker, i) ::
                  i + |marker| >= |payload| || !IsIdr(payload[i + |marker|])
      decreases |payload| - start, index
    {
      var position := index + |marker|;
      if position < |payload| && IsIdr(payload[position]) {
        return true;
      }
      forall i: nat | i < position && Occurs(payload, marker, i)
        ensures i + |marker| >= |payload| || !IsIdr(payload[i + |marker|])
      {
        if index < i < position {
          OverlappingOccurrences(payload, marker, index, i);
        }
      }
      start := position;
      index := Find(payload, marker, start);
    }
    found := false;
  }

  /** Follow the length prefixes to an IDR unit, malformed data or the end. */
  method WalkUnits(payload: Bytes) returns (found: bool)
    ensures found <==> LengthPrefixedIdr(payload)
  {
    var offset := 0;
    ghost var walked: seq<nat> := [];
    while offset + 4 <= |payload|
      invariant Walked(payload, walked, offset)
      decreases |payload| - offset
    {
      var size := Size(payload, offset);
      if size <= 0 || offset + 4 + size > |payload| {
        NothingBehind(payload, walked, offset);
        return false;
      }
      if IsIdr(payload[offset + 4]) {
        assert UnitsUpToIdr(payload, walked + [offset]);
        return true;
      }
      walked := walked + [offset];
      offset := offset + 4 + size;
    }
    NothingBehind(payload, walked, offset);
    found := false;
  }

  lemma NothingBehind(payload: Bytes, walked: seq<nat>, offset: nat)
    requires Walked(payload, walked, offset) && !UnitAt(payload, offset)
    ensures !LengthPrefixedIdr(payload)
  {
    forall at: seq<nat>
      ensures !UnitsUpToIdr(payload, at)
    {
      DeadEnd(payload, walked, offset, at);
    }
  }

  /**
    The whole scan is exact: it reports an IDR unit exactly if a start code precedes one, or the length-prefixed
    units lead to one before malformed data.
   */
  method ContainsIdr(payload: Bytes) returns (found: bool)
    ensures found <==> MarkedIdr(payload, THREE_BYTE_MARKER) || LengthPrefixedIdr(payload)
  {
    MarkersNeverOverlap();
    found := ScanFor(payload, THREE_BYTE_MARKER);
    if !found {
      FourByteMarkersAddNothing(payload);
      found := ScanFor(payload, FOUR_BYTE_MARKER);
    }
    if !found {
      found := WalkUnits(payload);
    }
  }
}
