/** Unsigned 32-bit words, as the hasher returns them. */
module Uint32 {
  const MODULUS: int := 0x1_0000_0000

  type u32 = x: int | 0 <= x < MODULUS
}

/**
 * The slot layout of a TinyHash table as a pure value: a sequence of nodes
 * addressed by slot index, chained by `next` indices, and the persistent
 * free-slot cursor.  Every operation of the table is given here as a
 * function from the old layout to the new one; the class in TinyHashTable
 * is proved to compute exactly these functions.
 */
module Slots {
  import opened Uint32

  /** The `next` value that ends a chain. */
  const NoNext: int := -1

  datatype Option<T> = None | Some(value: T)

  /** One slot of the backing array. */
  datatype Node<V> = Empty | Occupied(key: string, value: V, hash: u32, next: int)

  /** The backing array and the free-slot cursor; the capacity is `|slots|`. */
  datatype Table<V> = Table(slots: seq<Node<V>>, cursor: nat)

  predicate LinkOk(n: int, cap: nat) {
    n == NoNext || 0 <= n < cap
  }

  /** Shape facts every layout function relies on: a non-empty array, a cursor
      within it, and every link either NoNext or a slot index. */
  predicate WellFormed<V>(t: Table<V>) {
    |t.slots| > 0 && t.cursor <= |t.slots| &&
    forall i | 0 <= i < |t.slots| && t.slots[i].Occupied? :: LinkOk(t.slots[i].next, |t.slots|)
  }

  /** The home slot of a hash. */
  function Home(hash: u32, cap: nat): (h: nat)
    requires cap > 0
    ensures h < cap
  {
    hash % cap
  }

  /** A node is an anchor when it sits in its own home slot. */
  predicate IsAnchor<V>(s: seq<Node<V>>, i: nat)
    requires i < |s|
  {
    s[i].Occupied? && Home(s[i].hash, |s|) == i
  }

  /** A fresh array of `cap` empty slots with the cursor one past the last slot. */
  function Fresh<V>(cap: nat): (t: Table<V>)
    requires cap > 0
    ensures WellFormed(t) && |t.slots| == cap && t.cursor == cap
    ensures forall i | 0 <= i < cap :: t.slots[i].Empty?
  {
    Table(seq(cap, _ => Empty), cap)
  }

  /** Number of occupied slots. */
  function CountOccupied<V>(s: seq<Node<V>>): nat
  {
    if s == [] then 0
    else CountOccupied(s[..|s| - 1]) + (if s[|s| - 1].Occupied? then 1 else 0)
  }

  /**
   * The free-slot search: the cursor moves down from `c` and stops at the
   * first empty slot below it.  None when it reaches 0 without one.
   */
  function FindFree<V>(s: seq<Node<V>>, c: nat): (r: Option<nat>)
    requires c <= |s|
    ensures r.Some? ==> r.value < c && s[r.value].Empty?
    ensures r.Some? ==> forall j | r.value < j < c :: s[j].Occupied?
    ensures r.None? ==> forall j | 0 <= j < c :: s[j].Occupied?
    decreases c
  {
    if c == 0 then None
    else if s[c - 1].Empty? then Some(c - 1)
    else FindFree(s, c - 1)
  }

  /** The lowest slot at or above `from` whose node links to `target`. */
  function FindPred<V>(s: seq<Node<V>>, target: int, from: nat): (r: Option<nat>)
    requires from <= |s|
    ensures r.Some? ==> from <= r.value < |s| && s[r.value].Occupied? && s[r.value].next == target
    ensures r.Some? ==> forall p | from <= p < r.value :: !(s[p].Occupied? && s[p].next == target)
    ensures r.None? ==> forall p | from <= p < |s| :: !(s[p].Occupied? && s[p].next == target)
    decreases |s| - from
  {
    if from == |s| then None
    else if s[from].Occupied? && s[from].next == target then Some(from)
    else FindPred(s, target, from + 1)
  }

  /** The lowest slot at or above `from` that holds key `k`. */
  function IndexOf<V>(s: seq<Node<V>>, k: string, from: nat): (r: Option<nat>)
    requires from <= |s|
    ensures r.Some? ==> from <= r.value < |s| && s[r.value].Occupied? && s[r.value].key == k
    ensures r.None? ==> forall i | from <= i < |s| :: !(s[i].Occupied? && s[i].key == k)
    decreases |s| - from
  {
    if from == |s| then None
    else if s[from].Occupied? && s[from].key == k then Some(from)
    else IndexOf(s, k, from + 1)
  }

  /** The value stored under `k`, if any. */
  function Lookup<V>(s: seq<Node<V>>, k: string): (r: Option<V>)
    ensures r.Some? ==> exists i | 0 <= i < |s| :: s[i].Occupied? && s[i].key == k && s[i].value == r.value
    ensures r.None? ==> forall i | 0 <= i < |s| :: !(s[i].Occupied? && s[i].key == k)
  {
    match IndexOf(s, k, 0)
    case Some(i) => Some(s[i].value)
    case None => None
  }

  /**
   * Placement of a key that is not yet in the table (steps 3 and 4 of a put,
   * and the replay step of a resize).  An empty home slot takes the key as
   * an anchor.  Otherwise a free slot `f` is taken from the cursor: if the
   * home slot holds an anchor, the new node goes to `f` as the anchor's
   * immediate successor; if it holds a node of another chain, that node is
   * moved to `f`, its predecessor relinked to `f`, and the key becomes the
   * anchor of its home slot.  None when no free slot is found.
   */
  function Place<V>(t: Table<V>, k: string, v: V, h: u32): (r: Option<Table<V>>)
    requires WellFormed(t)
    ensures r.Some? ==> WellFormed(r.value) && |r.value.slots| == |t.slots| && r.value.cursor <= t.cursor
  {
    var s := t.slots;
    var mp := Home(h, |s|);
    if s[mp].Empty? then
      Some(Table(s[mp := Occupied(k, v, h, NoNext)], t.cursor))
    else
      match FindFree(s, t.cursor)
      case None => None
      case Some(f) =>
        var occ := s[mp];
        if Home(occ.hash, |s|) == mp then
          Some(Table(s[f := Occupied(k, v, h, occ.next)][mp := occ.(next := f)], f))
        else
          match FindPred(s, mp, 0)
          case None => None
          case Some(p) =>
            Some(Table(s[f := occ][p := s[p].(next := f)][mp := Occupied(k, v, h, NoNext)], f))
  }

  /** The first `n` slots of `src` replayed, in ascending slot order, into a
      fresh array of `cap` slots. */
  function Replay<V>(src: seq<Node<V>>, n: nat, cap: nat): (r: Table<V>)
    requires n <= |src| && cap > 0
    ensures WellFormed(r) && |r.slots| == cap
  {
    if n == 0 then Fresh(cap)
    else
      var acc := Replay(src, n - 1, cap);
      var e := src[n - 1];
      if e.Empty? then acc
      else
        match Place(acc, e.key, e.value, e.hash)
        case Some(t') => t'
        case None => acc
  }

  /** Resize: every entry replayed into `cap` fresh slots with a fresh cursor. */
  function Resize<V>(t: Table<V>, cap: nat): (r: Table<V>)
    requires cap > 0
    ensures WellFormed(r) && |r.slots| == cap
  {
    Replay(t.slots, |t.slots|, cap)
  }

  /** Automatic growth doubles the capacity. */
  function Grow<V>(t: Table<V>): (r: Table<V>)
    requires WellFormed(t)
    ensures WellFormed(r) && |r.slots| == 2 * |t.slots|
  {
    Resize(t, 2 * |t.slots|)
  }

  /** The load threshold num/den; 0 disables it.  Growth is due when one more
      entry would take the load above it. */
  predicate GrowDue<V>(t: Table<V>, num: nat, den: nat) {
    num > 0 && (CountOccupied(t.slots) + 1) * den > num * |t.slots|
  }

  /**
   * put: an existing key has its value overwritten in place; a new key is
   * placed after growing the table if the threshold is due, and if no free
   * slot is found the table is doubled and the key placed again.
   */
  function Put<V>(t: Table<V>, k: string, v: V, h: u32, num: nat, den: nat): (r: Table<V>)
    requires WellFormed(t)
    ensures WellFormed(r)
  {
    match IndexOf(t.slots, k, 0)
    case Some(i) => Table(t.slots[i := t.slots[i].(value := v)], t.cursor)
    case None =>
      var t1 := if GrowDue(t, num, den) then Grow(t) else t;
      match Place(t1, k, v, h)
      case Some(t2) => t2
      case None =>
        var t3 := Grow(t1);
        match Place(t3, k, v, h)
        case Some(t4) => t4
        case None => t3
  }

  /**
   * remove: a node reached through a predecessor is spliced out; a lone
   * anchor's slot is emptied; an anchor with a successor takes over the
   * successor's key, value, hash and link, and the successor's slot is
   * emptied.  The flag says whether the key was found.
   */
  function Remove<V>(t: Table<V>, k: string): (r: (Table<V>, bool))
    requires WellFormed(t)
    ensures WellFormed(r.0) && |r.0.slots| == |t.slots| && r.0.cursor == t.cursor
  {
    var s := t.slots;
    match IndexOf(s, k, 0)
    case None => (t, false)
    case Some(i) =>
      var n := s[i];
      if Home(n.hash, |s|) != i then
        match FindPred(s, i, 0)
        case Some(p) => (Table(s[p := s[p].(next := n.next)][i := Empty], t.cursor), true)
        case None => (Table(s[i := Empty], t.cursor), true)
      else if n.next == NoNext then
        (Table(s[i := Empty], t.cursor), true)
      else
        (Table(s[i := s[n.next]][n.next := Empty], t.cursor), true)
  }

  /** The debug dump: (slot, hash, next) of every occupied slot at or above
      `from`, in ascending slot order. */
  function DumpFrom<V>(s: seq<Node<V>>, from: nat): seq<(int, int, int)>
    requires from <= |s|
    decreases |s| - from
  {
    if from == |s| then []
    else
      var rest := DumpFrom(s, from + 1);
      if s[from].Occupied? then [(from, s[from].hash as int, s[from].next)] + rest else rest
  }

  /** The dump from `from` lists exactly the occupied slots at or above it,
      each with its own hash and link, in ascending slot order. */
  lemma {:induction false} DumpFromLists<V>(s: seq<Node<V>>, from: nat)
    requires from <= |s|
    ensures forall e | e in DumpFrom(s, from) :: from <= e.0 < |s| && s[e.0].Occupied? && e.1 == s[e.0].hash && e.2 == s[e.0].next
    ensures forall i | from <= i < |s| && s[i].Occupied? :: (i, s[i].hash as int, s[i].next) in DumpFrom(s, from)
    ensures forall a, b | 0 <= a < b < |DumpFrom(s, from)| :: DumpFrom(s, from)[a].0 < DumpFrom(s, from)[b].0
    decreases |s| - from
  {
    if from < |s| {
      DumpFromLists(s, from + 1);
    }
  }

  /** The debug dump of the whole array. */
  function Dump<V>(s: seq<Node<V>>): (d: seq<(int, int, int)>)
    ensures forall e | e in d :: 0 <= e.0 < |s| && s[e.0].Occupied? && e.1 == s[e.0].hash && e.2 == s[e.0].next
    ensures forall i | 0 <= i < |s| && s[i].Occupied? :: (i, s[i].hash as int, s[i].next) in d
    ensures forall a, b | 0 <= a < b < |d| :: d[a].0 < d[b].0
  {
    DumpFromLists(s, 0);
    DumpFrom(s, 0)
  }

  /** No key is stored twice. */
  ghost predicate KeysUnique<V>(s: seq<Node<V>>) {
    forall i, j | 0 <= i < |s| && 0 <= j < |s| && s[i].Occupied? && s[j].Occupied? && s[i].key == s[j].key :: i == j
  }

  /** Every node caches the hash of its own key. */
  ghost predicate HashesMatch<V>(s: seq<Node<V>>, hasher: string -> u32) {
    forall i | 0 <= i < |s| && s[i].Occupied? :: s[i].hash == hasher(s[i].key)
  }

  /** The map after adding the entry of one slot (none for an empty slot). */
  function With<V>(m: map<string, V>, x: Node<V>): map<string, V> {
    if x.Occupied? then m[x.key := x.value] else m
  }

  /** The key-to-value map the layout stores, slot by slot. */
  function Contents<V>(s: seq<Node<V>>): map<string, V>
  {
    if s == [] then map[] else With(Contents(s[..|s| - 1]), s[|s| - 1])
  }
}
