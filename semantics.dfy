/**
 * What the layout operations mean for the stored map: put, remove and resize
 * as changes of the key-to-value map, of the number of occupied slots and
 * of the free-slot cursor.
 */
module Semantics {
  import opened Uint32
  import opened Slots
  import opened Chains

  // ---------------------------------------------------------------------
  // Counting occupied slots.
  // ---------------------------------------------------------------------

  function Occ<V>(x: Node<V>): nat {
    if x.Occupied? then 1 else 0
  }

  /** Writing one slot changes the count by what the slot held and what it holds now. */
  lemma {:induction false} CountWrite<V>(s: seq<Node<V>>, i: nat, x: Node<V>)
    requires i < |s|
    ensures CountOccupied(s[i := x]) == CountOccupied(s) - Occ(s[i]) + Occ(x)
    decreases |s|
  {
    var n := |s| - 1;
    if i == n {
      assert s[i := x][..n] == s[..n];
    } else {
      assert s[i := x][..n] == s[..n][i := x];
      CountWrite(s[..n], i, x);
    }
  }

  lemma {:induction false} CountAtMostCapacity<V>(s: seq<Node<V>>)
    ensures CountOccupied(s) <= |s|
    decreases |s|
  {
    if s != [] {
      CountAtMostCapacity(s[..|s| - 1]);
    }
  }

  /** A layout with no empty slot counts every slot. */
  lemma {:induction false} CountWhenFull<V>(s: seq<Node<V>>)
    requires forall i | 0 <= i < |s| :: s[i].Occupied?
    ensures CountOccupied(s) == |s|
    decreases |s|
  {
    if s != [] {
      CountWhenFull(s[..|s| - 1]);
    }
  }

  /** Extending a prefix by one slot. */
  lemma CountPrefixStep<V>(s: seq<Node<V>>, n: nat)
    requires n < |s|
    ensures CountOccupied(s[..n + 1]) == CountOccupied(s[..n]) + Occ(s[n])
  {
    assert s[..n + 1][..n] == s[..n];
  }

  /** A prefix counts no more than the whole. */
  lemma {:induction false} CountPrefixAtMost<V>(s: seq<Node<V>>, n: nat)
    requires n <= |s|
    ensures CountOccupied(s[..n]) <= CountOccupied(s)
    decreases |s| - n
  {
    if n < |s| {
      CountPrefixStep(s, n);
      CountPrefixAtMost(s, n + 1);
    } else {
      assert s[..n] == s;
    }
  }

  lemma {:induction false} DumpFromCount<V>(s: seq<Node<V>>, from: nat)
    requires from <= |s|
    ensures |DumpFrom(s, from)| + CountOccupied(s[..from]) == CountOccupied(s)
    decreases |s| - from
  {
    if from == |s| {
      assert s[..from] == s;
    } else {
      CountPrefixStep(s, from);
      DumpFromCount(s, from + 1);
    }
  }

  /** The dump has one entry per occupied slot. */
  lemma DumpCount<V>(s: seq<Node<V>>)
    ensures |Dump(s)| == CountOccupied(s)
  {
    DumpFromCount(s, 0);
    assert s[..0] == [];
  }

  // ---------------------------------------------------------------------
  // The stored map.
  // ---------------------------------------------------------------------

  function Without<V>(m: map<string, V>, x: Node<V>): map<string, V> {
    if x.Occupied? then m - {x.key} else m
  }

  lemma PrefixUnique<V>(s: seq<Node<V>>, n: nat)
    requires KeysUnique(s) && n <= |s|
    ensures KeysUnique(s[..n])
  {
  }

  /** Every occupied slot contributes its entry to the map. */
  lemma {:induction false} ContentsAt<V>(s: seq<Node<V>>, i: nat)
    requires KeysUnique(s) && i < |s| && s[i].Occupied?
    ensures s[i].key in Contents(s) && Contents(s)[s[i].key] == s[i].value
    decreases |s|
  {
    var n := |s| - 1;
    if i < n {
      PrefixUnique(s, n);
      ContentsAt(s[..n], i);
    }
  }

  /** Every key of the map is stored in some occupied slot. */
  lemma {:induction false} ContentsOnly<V>(s: seq<Node<V>>, k: string) returns (i: nat)
    requires k in Contents(s)
    ensures i < |s| && s[i].Occupied? && s[i].key == k
    decreases |s|
  {
    var n := |s| - 1;
    if s[n].Occupied? && s[n].key == k {
      i := n;
    } else {
      i := ContentsOnly(s[..n], k);
    }
  }

  /** With unique keys, the number of occupied slots is the number of stored keys. */
  lemma {:induction false} CountIsSize<V>(s: seq<Node<V>>)
    requires KeysUnique(s)
    ensures CountOccupied(s) == |Contents(s)|
    decreases |s|
  {
    if s != [] {
      var n := |s| - 1;
      PrefixUnique(s, n);
      CountIsSize(s[..n]);
      if s[n].Occupied? && s[n].key in Contents(s[..n]) {
        var j := ContentsOnly(s[..n], s[n].key);
      }
    }
  }

  /** A key is in the map exactly when the scan finds it, with that slot's value. */
  lemma ContentsFind<V>(s: seq<Node<V>>, k: string)
    requires KeysUnique(s)
    ensures k in Contents(s) <==> IndexOf(s, k, 0).Some?
    ensures k in Contents(s) ==> Contents(s)[k] == s[IndexOf(s, k, 0).value].value
  {
    if IndexOf(s, k, 0).Some? {
      ContentsAt(s, IndexOf(s, k, 0).value);
    }
    if k in Contents(s) {
      var i := ContentsOnly(s, k);
    }
  }

  /** get's result in terms of the stored map. */
  lemma LookupContents<V>(s: seq<Node<V>>, k: string)
    requires KeysUnique(s)
    ensures Lookup(s, k) == if k in Contents(s) then Some(Contents(s)[k]) else None
  {
    ContentsFind(s, k);
  }

  /** Writing one slot with a key stored nowhere else. */
  lemma ContentsWrite<V>(s: seq<Node<V>>, i: nat, x: Node<V>)
    requires KeysUnique(s) && i < |s|
    requires x.Occupied? ==> forall j | 0 <= j < |s| && j != i && s[j].Occupied? :: s[j].key != x.key
    ensures KeysUnique(s[i := x])
    ensures Contents(s[i := x]) == With(Without(Contents(s), s[i]), x)
  {
    var s' := s[i := x];
    var m := With(Without(Contents(s), s[i]), x);
    forall key
      ensures key in Contents(s') <==> key in m
      ensures key in m ==> Contents(s')[key] == m[key]
    {
      if key in Contents(s') {
        var j := ContentsOnly(s', key);
        ContentsAt(s', j);
        if j != i {
          ContentsAt(s, j);
        }
      }
      if key in m {
        if x.Occupied? && key == x.key {
          ContentsAt(s', i);
        } else {
          var j := ContentsOnly(s, key);
          ContentsAt(s, j);
          ContentsAt(s', j);
        }
      }
    }
  }

  /** Relinking a node changes neither the map nor the count. */
  lemma ContentsRelink<V>(s: seq<Node<V>>, i: nat, n: int)
    requires KeysUnique(s) && i < |s| && s[i].Occupied?
    ensures KeysUnique(s[i := s[i].(next := n)])
    ensures Contents(s[i := s[i].(next := n)]) == Contents(s)
    ensures CountOccupied(s[i := s[i].(next := n)]) == CountOccupied(s)
  {
    ContentsWrite(s, i, s[i].(next := n));
    ContentsAt(s, i);
    CountWrite(s, i, s[i].(next := n));
  }

  // ---------------------------------------------------------------------
  // Placement of a new key.
  // ---------------------------------------------------------------------

  /** Every slot at or above the cursor is occupied: true of a fresh array and
      kept by placement, so the cursor never skips a free slot. */
  ghost predicate FullAboveCursor<V>(t: Table<V>) {
    forall j | t.cursor <= j < |t.slots| :: t.slots[j].Occupied?
  }

  /** The facts placement establishes about the stored map, the count, the cached hashes and the cursor. */
  ghost predicate PlacedAs<V>(t: Table<V>, t': Table<V>, k: string, v: V, h: u32, hasher: string -> u32)
    requires KeysUnique(t.slots)
  {
    KeysUnique(t'.slots) && Contents(t'.slots) == Contents(t.slots)[k := v] &&
    CountOccupied(t'.slots) == CountOccupied(t.slots) + 1 &&
    (HashesMatch(t.slots, hasher) && h == hasher(k) ==> HashesMatch(t'.slots, hasher)) &&
    (FullAboveCursor(t) ==> FullAboveCursor(t'))
  }

  lemma AbsentKey<V>(s: seq<Node<V>>, k: string)
    requires KeysUnique(s) && k !in Contents(s)
    ensures forall j | 0 <= j < |s| && s[j].Occupied? :: s[j].key != k
  {
    ContentsFind(s, k);
  }

  lemma PlaceInEmptyHomeMeaning<V>(t: Table<V>, k: string, v: V, h: u32, hasher: string -> u32)
    requires WellFormed(t) && KeysUnique(t.slots) && k !in Contents(t.slots)
    requires t.slots[Home(h, |t.slots|)].Empty?
    ensures PlacedAs(t, Table(t.slots[Home(h, |t.slots|) := Occupied(k, v, h, NoNext)], t.cursor), k, v, h, hasher)
  {
    var s := t.slots;
    var mp := Home(h, |s|);
    AbsentKey(s, k);
    ContentsWrite(s, mp, Occupied(k, v, h, NoNext));
    CountWrite(s, mp, Occupied(k, v, h, NoNext));
  }

  lemma PlaceAfterAnchorMeaning<V>(t: Table<V>, k: string, v: V, h: u32, f: nat, hasher: string -> u32)
    requires WellFormed(t) && KeysUnique(t.slots) && k !in Contents(t.slots)
    requires t.slots[Home(h, |t.slots|)].Occupied?
    requires FindFree(t.slots, t.cursor) == Some(f)
    ensures var s := t.slots;
            var mp := Home(h, |s|);
            PlacedAs(t, Table(s[f := Occupied(k, v, h, s[mp].next)][mp := s[mp].(next := f)], f), k, v, h, hasher)
  {
    var s := t.slots;
    var mp := Home(h, |s|);
    var x: Node<V> := Occupied(k, v, h, s[mp].next);
    AbsentKey(s, k);
    var s1: seq<Node<V>> := s[f := x];
    ContentsWrite(s, f, x);
    CountWrite(s, f, x);
    assert s1[mp] == s[mp];
    ContentsRelink(s1, mp, f);
    var s2: seq<Node<V>> := s1[mp := s1[mp].(next := f)];
    assert s2 == s[f := x][mp := s[mp].(next := f)];
  }

  /** Moving an entry out of a slot and back into another leaves the map as it was. */
  lemma MapMoveBack<V>(m: map<string, V>, ok: string, ov: V, k: string, v: V)
    requires ok in m && m[ok] == ov && k !in m
    ensures (m - {ok})[k := v][ok := ov] == m[k := v]
  {
  }

  /** The three writes of a relocation, reordered so each step is a single write. */
  lemma RelocationWrites<V>(s: seq<Node<V>>, mp: nat, f: nat, p: nat, x: Node<V>)
    requires KeysUnique(s) && mp < |s| && f < |s| && p < |s|
    requires p != mp && p != f && f != mp
    requires s[mp].Occupied? && s[f].Empty? && s[p].Occupied?
    requires x.Occupied? && forall j | 0 <= j < |s| && s[j].Occupied? :: s[j].key != x.key
    ensures var s' := s[f := s[mp]][p := s[p].(next := f)][mp := x];
            KeysUnique(s') &&
            Contents(s') == (Contents(s) - {s[mp].key})[x.key := x.value][s[mp].key := s[mp].value] &&
            CountOccupied(s') == CountOccupied(s) + 1
  {
    var occ: Node<V> := s[mp];
    var s1: seq<Node<V>> := s[mp := x];
    ContentsWrite(s, mp, x);
    CountWrite(s, mp, x);
    var s2: seq<Node<V>> := s1[f := occ];
    assert forall j | 0 <= j < |s1| && j != f && s1[j].Occupied? :: s1[j].key != occ.key;
    ContentsWrite(s1, f, occ);
    CountWrite(s1, f, occ);
    var s3: seq<Node<V>> := s2[p := s2[p].(next := f)];
    ContentsRelink(s2, p, f);
    assert s3 == s[f := occ][p := s[p].(next := f)][mp := x];
  }

  lemma RelocationFacts<V>(t: Table<V>, mp: nat, f: nat, p: nat, x: Node<V>, hasher: string -> u32)
    requires mp < |t.slots| && f < t.cursor <= |t.slots| && p < |t.slots|
    requires t.slots[mp].Occupied? && t.slots[p].Occupied? && x.Occupied? && p != f
    requires forall j | f < j < t.cursor :: t.slots[j].Occupied?
    ensures var t' := Table(t.slots[f := t.slots[mp]][p := t.slots[p].(next := f)][mp := x], f);
            (HashesMatch(t.slots, hasher) && x.hash == hasher(x.key) ==> HashesMatch(t'.slots, hasher)) &&
            (FullAboveCursor(t) ==> FullAboveCursor(t'))
  {
  }

  lemma PlaceByRelocationMeaning<V>(t: Table<V>, k: string, v: V, h: u32, f: nat, p: nat, hasher: string -> u32)
    requires WellFormed(t) && Linked(t.slots) && KeysUnique(t.slots) && k !in Contents(t.slots)
    requires t.slots[Home(h, |t.slots|)].Occupied?
    requires FindFree(t.slots, t.cursor) == Some(f)
    requires FindPred(t.slots, Home(h, |t.slots|), 0) == Some(p)
    ensures var s := t.slots;
            var mp := Home(h, |s|);
            PlacedAs(t, Table(s[f := s[mp]][p := s[p].(next := f)][mp := Occupied(k, v, h, NoNext)], f), k, v, h, hasher)
  {
    var s := t.slots;
    var mp := Home(h, |s|);
    var x: Node<V> := Occupied(k, v, h, NoNext);
    NoSelfLink(s, p);
    AbsentKey(s, k);
    ContentsAt(s, mp);
    RelocationWrites(s, mp, f, p, x);
    MapMoveBack(Contents(s), s[mp].key, s[mp].value, k, v);
    RelocationFacts(t, mp, f, p, x, hasher);
  }

  /** Placement of a key that is not stored: the map gains the entry, the count grows by one. */
  lemma PlaceMeaning<V>(t: Table<V>, k: string, v: V, h: u32, hasher: string -> u32)
    requires WellFormed(t) && Linked(t.slots) && KeysUnique(t.slots) && k !in Contents(t.slots)
    requires Place(t, k, v, h).Some?
    ensures PlacedAs(t, Place(t, k, v, h).value, k, v, h, hasher)
  {
    var s := t.slots;
    var mp := Home(h, |s|);
    if s[mp].Empty? {
      PlaceInEmptyHomeMeaning(t, k, v, h, hasher);
    } else {
      var f := FindFree(s, t.cursor).value;
      if Home(s[mp].hash, |s|) == mp {
        PlaceAfterAnchorMeaning(t, k, v, h, f, hasher);
      } else {
        var p := FindPred(s, mp, 0).value;
        PlaceByRelocationMeaning(t, k, v, h, f, p, hasher);
      }
    }
  }

  /** Placement cannot fail while a free slot exists and the cursor has not passed one. */
  lemma PlaceSucceeds<V>(t: Table<V>, k: string, v: V, h: u32)
    requires WellFormed(t) && Linked(t.slots) && FullAboveCursor(t)
    requires CountOccupied(t.slots) < |t.slots|
    ensures Place(t, k, v, h).Some?
  {
    PlaceLinked(t, k, v, h);
    if Place(t, k, v, h).None? {
      CountWhenFull(t.slots);
    }
  }

  // ---------------------------------------------------------------------
  // Replay and resize.
  // ---------------------------------------------------------------------

  /** The map of a prefix one slot longer. */
  lemma ContentsSnoc<V>(s: seq<Node<V>>, n: nat)
    requires KeysUnique(s) && n < |s|
    ensures KeysUnique(s[..n]) && KeysUnique(s[..n + 1])
    ensures s[n].Occupied? ==> s[n].key !in Contents(s[..n])
    ensures Contents(s[..n + 1]) == With(Contents(s[..n]), s[n])
  {
    PrefixUnique(s, n);
    PrefixUnique(s, n + 1);
    assert s[..n + 1][..n] == s[..n];
    if s[n].Occupied? && s[n].key in Contents(s[..n]) {
      var j := ContentsOnly(s[..n], s[n].key);
    }
  }

  /**
   * Replaying the first n slots of a layout whose entries fit in `cap` slots
   * stores exactly their entries: every placement succeeds, keys stay
   * unique, the chains stay linked and the cursor never passes a free slot.
   */
  lemma {:induction false} ReplayMeaning<V>(src: seq<Node<V>>, n: nat, cap: nat, hasher: string -> u32)
    requires KeysUnique(src) && n <= |src| && cap > 0
    requires CountOccupied(src[..n]) <= cap
    ensures var r := Replay(src, n, cap);
            KeysUnique(src[..n]) && Linked(r.slots) && KeysUnique(r.slots) && FullAboveCursor(r) &&
            Contents(r.slots) == Contents(src[..n]) &&
            CountOccupied(r.slots) == CountOccupied(src[..n]) &&
            (HashesMatch(src, hasher) ==> HashesMatch(r.slots, hasher))
  {
    PrefixUnique(src, n);
    ReplayLinked(src, n, cap);
    if n == 0 {
      var r := Fresh<V>(cap);
      assert src[..0] == [];
      EmptyLayout(r.slots);
    } else {
      var acc := Replay(src, n - 1, cap);
      var e := src[n - 1];
      CountPrefixStep(src, n - 1);
      ReplayMeaning(src, n - 1, cap, hasher);
      ContentsSnoc(src, n - 1);
      if e.Occupied? {
        PlaceSucceeds(acc, e.key, e.value, e.hash);
        PlaceMeaning(acc, e.key, e.value, e.hash, hasher);
      }
    }
  }

  /** A layout of empty slots stores nothing. */
  lemma {:induction false} EmptyLayout<V>(s: seq<Node<V>>)
    requires forall i | 0 <= i < |s| :: s[i].Empty?
    ensures CountOccupied(s) == 0 && Contents(s) == map[]
    decreases |s|
  {
    if s != [] {
      EmptyLayout(s[..|s| - 1]);
    }
  }

  /** One step of a replay whose entries fit: the placement succeeds and extends the replay. */
  lemma ReplayStep<V>(src: seq<Node<V>>, i: nat, cap: nat)
    requires KeysUnique(src) && i < |src| && src[i].Occupied? && cap > 0
    requires CountOccupied(src) <= cap
    ensures var acc := Replay(src, i, cap);
            var e := src[i];
            Linked(acc.slots) && Place(acc, e.key, e.value, e.hash).Some? &&
            Replay(src, i + 1, cap) == Place(acc, e.key, e.value, e.hash).value
  {
    CountPrefixStep(src, i);
    CountPrefixAtMost(src, i + 1);
    ReplayMeaning(src, i, cap, x => 0);
    PlaceSucceeds(Replay(src, i, cap), src[i].key, src[i].value, src[i].hash);
  }

  /** Resizing to a capacity that holds every entry keeps the stored map and the count. */
  lemma ResizeMeaning<V>(t: Table<V>, cap: nat, hasher: string -> u32)
    requires KeysUnique(t.slots) && cap > 0 && CountOccupied(t.slots) <= cap
    ensures var r := Resize(t, cap);
            |r.slots| == cap && Linked(r.slots) && KeysUnique(r.slots) && FullAboveCursor(r) &&
            Contents(r.slots) == Contents(t.slots) &&
            CountOccupied(r.slots) == CountOccupied(t.slots) &&
            (HashesMatch(t.slots, hasher) ==> HashesMatch(r.slots, hasher))
  {
    assert t.slots[..|t.slots|] == t.slots;
    ReplayMeaning(t.slots, |t.slots|, cap, hasher);
  }

  // ---------------------------------------------------------------------
  // put.
  // ---------------------------------------------------------------------

  /** Overwriting the value of a stored key. */
  lemma OverwriteMeaning<V>(t: Table<V>, k: string, v: V, hasher: string -> u32)
    requires Inv(t, hasher) && IndexOf(t.slots, k, 0).Some?
    ensures var i := IndexOf(t.slots, k, 0).value;
            var r := Table(t.slots[i := t.slots[i].(value := v)], t.cursor);
            Inv(r, hasher) && Contents(r.slots) == Contents(t.slots)[k := v] &&
            CountOccupied(r.slots) == CountOccupied(t.slots)
  {
    var s := t.slots;
    var i := IndexOf(s, k, 0).value;
    var x: Node<V> := s[i].(value := v);
    ContentsWrite(s, i, x);
    CountWrite(s, i, x);
    SameLinksLinked(s, s[i := x]);
  }

  /** A table rebuilt by growth holds the same map and has room for one more entry. */
  lemma GrowMeaning<V>(t: Table<V>, hasher: string -> u32)
    requires Inv(t, hasher)
    ensures var g := Grow(t);
            Inv(g, hasher) && FullAboveCursor(g) &&
            Contents(g.slots) == Contents(t.slots) &&
            CountOccupied(g.slots) == CountOccupied(t.slots) < |g.slots|
  {
    CountAtMostCapacity(t.slots);
    ResizeMeaning(t, 2 * |t.slots|, hasher);
  }

  /** put of a key that is not stored. */
  lemma PutNewMeaning<V>(t: Table<V>, k: string, v: V, num: nat, den: nat, hasher: string -> u32)
    requires Inv(t, hasher) && k !in Contents(t.slots)
    ensures var r := Put(t, k, v, hasher(k), num, den);
            Inv(r, hasher) && Contents(r.slots) == Contents(t.slots)[k := v] &&
            CountOccupied(r.slots) == CountOccupied(t.slots) + 1 &&
            |r.slots| == (if GrowDue(t, num, den) || Place(t, k, v, hasher(k)).None? then 2 * |t.slots| else |t.slots|)
  {
    var h := hasher(k);
    ContentsFind(t.slots, k);
    if GrowDue(t, num, den) {
      var g := Grow(t);
      GrowMeaning(t, hasher);
      PlaceSucceeds(g, k, v, h);
      PlaceLinked(g, k, v, h);
      PlaceMeaning(g, k, v, h, hasher);
    } else if Place(t, k, v, h).Some? {
      PlaceLinked(t, k, v, h);
      PlaceMeaning(t, k, v, h, hasher);
    } else {
      var g := Grow(t);
      GrowMeaning(t, hasher);
      PlaceSucceeds(g, k, v, h);
      PlaceLinked(g, k, v, h);
      PlaceMeaning(g, k, v, h, hasher);
    }
  }

  /**
   * put never fails: afterwards the table maps `k` to `v` and every other key
   * as before, the count grows by one exactly when `k` was new, and the
   * invariant holds.
   */
  lemma PutMeaning<V>(t: Table<V>, k: string, v: V, num: nat, den: nat, hasher: string -> u32)
    requires Inv(t, hasher)
    ensures var r := Put(t, k, v, hasher(k), num, den);
            Inv(r, hasher) && Contents(r.slots) == Contents(t.slots)[k := v] &&
            CountOccupied(r.slots) == CountOccupied(t.slots) + (if k in Contents(t.slots) then 0 else 1)
  {
    ContentsFind(t.slots, k);
    if k in Contents(t.slots) {
      OverwriteMeaning(t, k, v, hasher);
    } else {
      PutNewMeaning(t, k, v, num, den, hasher);
    }
  }

  /**
   * The capacity after put: unchanged for a stored key; doubled for a new
   * key exactly when the load threshold is due, or when the home slot is
   * taken and the cursor finds no free slot below it.
   */
  lemma PutCapacity<V>(t: Table<V>, k: string, v: V, num: nat, den: nat, hasher: string -> u32)
    requires Inv(t, hasher)
    ensures var r := Put(t, k, v, hasher(k), num, den);
            var s := t.slots;
            |r.slots| == (if k in Contents(s) then |s|
                          else if GrowDue(t, num, den) ||
                                  (s[Home(hasher(k), |s|)].Occupied? && FindFree(s, t.cursor).None?)
                          then 2 * |s|
                          else |s|)
  {
    ContentsFind(t.slots, k);
    if k !in Contents(t.slots) {
      PutNewMeaning(t, k, v, num, den, hasher);
      PlaceLinked(t, k, v, hasher(k));
    }
  }

  /** Between resizes the free-slot cursor only moves down: a put that keeps
      the capacity never raises it. */
  lemma PutCursor<V>(t: Table<V>, k: string, v: V, h: u32, num: nat, den: nat)
    requires WellFormed(t)
    ensures var r := Put(t, k, v, h, num, den);
            |r.slots| == |t.slots| ==> r.cursor <= t.cursor
  {
  }

  // ---------------------------------------------------------------------
  // remove.
  // ---------------------------------------------------------------------

  lemma SpliceMeaning<V>(s: seq<Node<V>>, i: nat, p: nat)
    requires KeysUnique(s) && i < |s| && p < |s| && p != i && s[i].Occupied? && s[p].Occupied?
    ensures var s' := s[p := s[p].(next := s[i].next)][i := Empty];
            KeysUnique(s') && Contents(s') == Contents(s) - {s[i].key} &&
            CountOccupied(s') == CountOccupied(s) - 1
  {
    var s1: seq<Node<V>> := s[p := s[p].(next := s[i].next)];
    ContentsRelink(s, p, s[i].next);
    ContentsWrite(s1, i, Empty);
    CountWrite(s1, i, Empty);
  }

  lemma ClearMeaning<V>(s: seq<Node<V>>, i: nat)
    requires KeysUnique(s) && i < |s| && s[i].Occupied?
    ensures KeysUnique(s[i := Empty]) && Contents(s[i := Empty]) == Contents(s) - {s[i].key} &&
            CountOccupied(s[i := Empty]) == CountOccupied(s) - 1
  {
    ContentsWrite(s, i, Empty);
    CountWrite(s, i, Empty);
  }

  lemma MapAbsorb<V>(m: map<string, V>, k: string, km: string, vm: V)
    requires km in m && m[km] == vm && km != k
    ensures ((m - {km}) - {k})[km := vm] == m - {k}
  {
  }

  lemma AbsorbMeaning<V>(s: seq<Node<V>>, i: nat, m: nat)
    requires KeysUnique(s) && i < |s| && m < |s| && i != m && s[i].Occupied? && s[m].Occupied?
    ensures var s' := s[i := s[m]][m := Empty];
            KeysUnique(s') && Contents(s') == Contents(s) - {s[i].key} &&
            CountOccupied(s') == CountOccupied(s) - 1
  {
    var s1: seq<Node<V>> := s[m := Empty];
    ContentsAt(s, m);
    ContentsWrite(s, m, Empty);
    CountWrite(s, m, Empty);
    ContentsWrite(s1, i, s[m]);
    CountWrite(s1, i, s[m]);
    MapAbsorb(Contents(s), s[i].key, s[m].key, s[m].value);
    assert s1[i := s[m]] == s[i := s[m]][m := Empty];
  }

  /**
   * remove reports success exactly when the key is stored; the key then
   * leaves the map, every other key keeps its value and the count drops by
   * one; otherwise the table is unchanged.  The invariant holds either way.
   */
  lemma RemoveMeaning<V>(t: Table<V>, k: string, hasher: string -> u32)
    requires Inv(t, hasher)
    ensures var (r, found) := Remove(t, k);
            found == (k in Contents(t.slots)) && Inv(r, hasher) &&
            Contents(r.slots) == Contents(t.slots) - {k} &&
            CountOccupied(r.slots) == CountOccupied(t.slots) - (if found then 1 else 0) &&
            (!found ==> r == t)
  {
    var s := t.slots;
    ContentsFind(s, k);
    RemoveLinked(t, k);
    match IndexOf(s, k, 0)
    case None =>
      assert Contents(s) - {k} == Contents(s);
    case Some(i) =>
      if Home(s[i].hash, |s|) != i {
        NonAnchorHasPredecessor(s, i);
        var p := FindPred(s, i, 0).value;
        NoSelfLink(s, p);
        SpliceMeaning(s, i, p);
      } else if s[i].next == NoNext {
        ClearMeaning(s, i);
      } else {
        LinkTarget(s, i);
        AbsorbMeaning(s, i, s[i].next);
      }
  }
}
