/** What a bounded least-recently-used key list remembers of a history. */
module Lru {
  import opened OrderedDict

  function Drop<K(==)>(ks: seq<K>, k: K): seq<K> {
    if ks == [] then []
    else (if ks[0] == k then [] else [ks[0]]) + Drop(ks[1..], k)
  }

  /** Using a key moves it to the end; a new key in a full list first pushes out the oldest one. */
  function Use<K(==)>(ks: seq<K>, k: K, max: nat): seq<K> {
    if k in ks then Drop(ks, k) + [k]
    else (if |ks| >= max && ks != [] then ks[1..] else ks) + [k]
  }

  function AfterUses<K(==)>(history: seq<K>, max: nat): seq<K> {
    if history == [] then []
    else Use(AfterUses(history[..|history| - 1], max), history[|history| - 1], max)
  }

  /** The other keys used since `k` was last used. */
  function OthersSince<K(==)>(history: seq<K>, k: K): set<K> {
    if history == [] then {}
    else
      var last := history[|history| - 1];
      if last == k then {} else OthersSince(history[..|history| - 1], k) + {last}
  }

  function Elems<K>(ks: seq<K>): set<K> {
    set k | k in ks
  }

  /** The keys behind `k` in the list. */
  function Behind<K(==)>(ks: seq<K>, k: K): set<K> {
    if ks == [] then {}
    else if ks[0] == k then Elems(ks[1..])
    else Behind(ks[1..], k)
  }

  lemma {:induction false} DropElems<K(!new)>(ks: seq<K>, k: K)
    ensures forall x :: x in Drop(ks, k) <==> x in ks && x != k
    ensures Unique(ks) ==> Unique(Drop(ks, k)) && |Drop(ks, k)| == |ks| - (if k in ks then 1 else 0)
  {
    if ks != [] {
      assert ks == [ks[0]] + ks[1..];
      DropElems(ks[1..], k);
      if Unique(ks) {
        UniqueTail(ks);
        UniqueEnds(Drop(ks[1..], k), ks[0]);
      }
    }
  }

  lemma {:induction false} BehindAppend<K>(ks: seq<K>, q: K, k: K)
    requires k in ks
    ensures Behind(ks + [q], k) == Behind(ks, k) + {q}
  {
    assert (ks + [q])[1..] == ks[1..] + [q];
    if ks[0] != k {
      BehindAppend(ks[1..], q, k);
    }
  }

  lemma {:induction false} BehindNew<K>(ks: seq<K>, q: K)
    requires q !in ks
    ensures Behind(ks + [q], q) == {}
  {
    if ks != [] {
      assert (ks + [q])[1..] == ks[1..] + [q];
      BehindNew(ks[1..], q);
    } else {
      assert ([] + [q])[1..] == [];
    }
  }

  lemma {:induction false} BehindDrop<K(!new)>(ks: seq<K>, q: K, k: K)
    requires k in ks && k != q
    ensures Behind(Drop(ks, q), k) == Behind(ks, k) - {q}
  {
    var r := Drop(ks[1..], q);
    assert [ks[0]] + r != [] && ([ks[0]] + r)[1..] == r;
    if ks[0] == k {
      DropElems(ks[1..], q);
    } else {
      BehindDrop(ks[1..], q, k);
      assert [] + r == r;
    }
  }

  lemma {:induction false} Count<K(!new)>(ks: seq<K>)
    requires Unique(ks)
    ensures |Elems(ks)| == |ks|
  {
    if ks != [] {
      UniqueTail(ks);
      Count(ks[1..]);
      assert Elems(ks) == {ks[0]} + Elems(ks[1..]);
    }
  }

  lemma {:induction false} BehindIsFewer<K(!new)>(ks: seq<K>, k: K)
    requires Unique(ks) && k in ks
    ensures |Behind(ks, k)| < |ks|
  {
    UniqueTail(ks);
    if ks[0] == k {
      Count(ks[1..]);
    } else {
      BehindIsFewer(ks[1..], k);
    }
  }

  ghost predicate Remembers<K(!new)>(ks: seq<K>, history: seq<K>, max: nat) {
    && Unique(ks)
    && |ks| <= max
    && (forall k :: k in ks ==> k in history && Behind(ks, k) == OthersSince(history, k))
    && (forall k :: k in history && k !in ks ==> |OthersSince(history, k)| >= max)
  }

  /** The list without `q`, or with room for it. */
  function Room<K(==)>(ks: seq<K>, q: K, max: nat): seq<K> {
    if q in ks then Drop(ks, q) else if |ks| >= max && ks != [] then ks[1..] else ks
  }

  lemma RoomElems<K(!new)>(ks: seq<K>, q: K, max: nat)
    requires max >= 1 && Unique(ks) && |ks| <= max
    ensures var room := Room(ks, q, max);
            && Unique(room) && q !in room && |room| < max
            && (forall k :: k in room ==> k in ks)
            && (forall k | k in ks && k != q && k !in room :: q !in ks && |ks| == max && k == ks[0])
  {
    DropElems(ks, q);
    if ks != [] {
      UniqueTail(ks);
      assert ks == [ks[0]] + ks[1..];
    }
  }

  lemma RoomBehind<K(!new)>(ks: seq<K>, q: K, max: nat, k: K)
    requires Unique(ks) && k in Room(ks, q, max) && k != q && k in ks
    ensures Behind(Room(ks, q, max) + [q], k) == Behind(ks, k) + {q}
  {
    var room := Room(ks, q, max);
    BehindAppend(room, q, k);
    if q in ks {
      BehindDrop(ks, q, k);
      assert Behind(ks, k) - {q} + {q} == Behind(ks, k) + {q};
    } else if room != ks {
      UniqueTail(ks);
    }
  }

  lemma OthersNext<K>(history: seq<K>, q: K, k: K)
    ensures OthersSince(history + [q], k) == if k == q then {} else OthersSince(history, k) + {q}
  {
    assert (history + [q])[..|history|] == history;
  }

  /** A key pushed out has as many others behind it as the list has places. */
  lemma PushedOut<K(!new)>(ks: seq<K>, q: K, max: nat)
    requires Unique(ks) && |ks| == max >= 1 && q !in ks
    ensures |Behind(ks, ks[0]) + {q}| >= max
  {
    UniqueTail(ks);
    Count(ks[1..]);
    assert ks == [ks[0]] + ks[1..];
    assert q !in Elems(ks[1..]);
  }

  lemma UseRemembers<K(!new)>(ks: seq<K>, history: seq<K>, q: K, max: nat)
    requires max >= 1 && Remembers(ks, history, max)
    ensures Remembers(Use(ks, q, max), history + [q], max)
  {
    var h, room := history + [q], Room(ks, q, max);
    var r := room + [q];
    assert r == Use(ks, q, max);
    RoomElems(ks, q, max);
    UniqueEnds(room, q);
    forall k | k in r
      ensures k in h && Behind(r, k) == OthersSince(h, k)
    {
      OthersNext(history, q, k);
      if k == q {
        BehindNew(room, q);
      } else {
        RoomBehind(ks, q, max, k);
      }
    }
    forall k | k in h && k !in r
      ensures |OthersSince(h, k)| >= max
    {
      OthersNext(history, q, k);
      if k in ks {
        PushedOut(ks, q, max);
      } else {
        Grows(OthersSince(history, k), q);
      }
    }
  }

  lemma Grows<K>(s: set<K>, q: K)
    ensures |s + {q}| >= |s|
  {
    if q in s {
      assert s + {q} == s;
    }
  }

  lemma {:induction false} AlwaysRemembers<K(!new)>(history: seq<K>, max: nat)
    requires max >= 1
    ensures Remembers(AfterUses(history, max), history, max)
  {
    if history != [] {
      var p := history[..|history| - 1];
      AlwaysRemembers(p, max);
      UseRemembers(AfterUses(p, max), p, history[|history| - 1], max);
      assert p + [history[|history| - 1]] == history;
    }
  }

  /** A key is forgotten exactly when at least `max` other keys were used since it was last used. */
  lemma ForgottenExactlyWhenCrowdedOut<K(!new)>(history: seq<K>, max: nat, k: K)
    requires max >= 1 && k in history
    ensures k in AfterUses(history, max) <==> |OthersSince(history, k)| < max
  {
    AlwaysRemembers(history, max);
    var ks := AfterUses(history, max);
    if k in ks {
      BehindIsFewer(ks, k);
    }
  }
}
