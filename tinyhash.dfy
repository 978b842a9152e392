/**
 * The TinyHash table as the mutable object its API manipulates: one array
 * of nodes, the number of stored entries and the persistent free-slot
 * cursor, plus the hasher and the load threshold fixed at creation.  Every
 * method walks and rewrites the array in place and is proved to produce
 * exactly the layout the pure functions of Slots describe; what those
 * layouts mean for the stored map is proved in Semantics.
 */
module TinyHashTable {
  import opened Uint32
  import opened Slots
  import opened Chains
  import opened Semantics

  class TinyHash<V> {
    var nodes: array<Node<V>>
    var count: nat
    var freeCursor: nat
    const hasher: string -> u32
    /** The load threshold maxFullNum / maxFullDen; a zero numerator disables it. */
    const maxFullNum: nat
    const maxFullDen: nat

    /** The layout as a value. */
    function State(): Table<V>
      reads this, nodes
    {
      Table(nodes[..], freeCursor)
    }

    ghost predicate Valid()
      reads this, nodes
    {
      Inv(State(), hasher) && count == CountOccupied(nodes[..])
    }

    /** tiny_hash_create: `size` empty slots, the cursor one past the last. */
    constructor (size: nat, hasher: string -> u32, maxFullNum: nat, maxFullDen: nat)
      requires size > 0 && maxFullDen > 0
      ensures Valid() && fresh(nodes)
      ensures State() == Fresh(size) && count == 0 && Contents(nodes[..]) == map[]
      ensures this.hasher == hasher && this.maxFullNum == maxFullNum && this.maxFullDen == maxFullDen
    {
      nodes := new Node<V>[size](_ => Empty);
      count := 0;
      freeCursor := size;
      this.hasher := hasher;
      this.maxFullNum := maxFullNum;
      this.maxFullDen := maxFullDen;
      new;
      assert nodes[..] == Fresh<V>(size).slots;
      FreshLinked<V>(size);
      EmptyLayout(nodes[..]);
    }

    /** Move the cursor down to the next empty slot; None once it reaches 0. */
    method FindFreeSlot() returns (r: Option<nat>)
      requires freeCursor <= nodes.Length
      modifies this
      ensures nodes == old(nodes) && count == old(count)
      ensures r == FindFree(nodes[..], old(freeCursor))
      ensures freeCursor == (if r.Some? then r.value else 0)
    {
      while freeCursor > 0
        invariant freeCursor <= old(freeCursor) && nodes == old(nodes) && count == old(count)
        invariant FindFree(nodes[..], freeCursor) == FindFree(nodes[..], old(freeCursor))
        decreases freeCursor
      {
        freeCursor := freeCursor - 1;
        if nodes[freeCursor].Empty? {
          return Some(freeCursor);
        }
      }
      return None;
    }

    /**
     * The walk from a key's home slot along the links, remembering the node
     * before the current one.  Finds the key's slot exactly when it is
     * stored; the remembered node is then its predecessor, or NoNext when the
     * key sits in its home slot as an anchor.
     */
    method FindNode(k: string) returns (r: Option<nat>, prev: int)
      requires Valid()
      ensures r == IndexOf(nodes[..], k, 0)
      ensures r.Some? ==> (prev == NoNext <==> IsAnchor(nodes[..], r.value))
      ensures r.Some? && prev != NoNext ==> FindPred(nodes[..], r.value, 0) == Some(prev)
    {
      ghost var s := nodes[..];
      var mp := Home(hasher(k), nodes.Length);
      if nodes[mp].Empty? {
        HomeFreeMisses(s, k, hasher);
        return None, NoNext;
      }
      ghost var ch :| ChainsOk(s, ch);
      ghost var b := Home(s[mp].hash, |s|);
      ghost var j0 := PositionOf(s, ch, mp);
      WalkStart(s, ch, k, hasher, j0);
      ghost var j := j0;
      var p := mp;
      prev := NoNext;
      while nodes[p].key != k
        invariant j0 <= j < |ch[b]| && ch[b][j] == p && p < |s| && s[p].Occupied?
        invariant prev == if j == j0 then NoNext else ch[b][j - 1]
        invariant forall x | j0 <= x < j :: ch[b][x] < |s| && s[ch[b][x]].Occupied? && s[ch[b][x]].key != k
        decreases |ch[b]| - j
      {
        Member(s, ch, b, j);
        if nodes[p].next == NoNext {
          WalkEnd(s, ch, k, b, j0, j);
          return None, NoNext;
        }
        prev := p;
        p := nodes[p].next;
        j := j + 1;
        Member(s, ch, b, j);
      }
      r := Some(p);
      var i := IndexOf(s, k, 0);
      assert i == Some(p);
      if j > 0 {
        PredecessorOf(s, ch, b, j);
        Member(s, ch, b, 0);
      }
    }

    /**
     * The node that links to `mp`, found by walking the chain of the node
     * occupying `mp` from that node's home slot.
     */
    method FindPredecessor(mp: nat) returns (p: nat)
      requires WellFormed(State()) && Linked(nodes[..])
      requires mp < nodes.Length && nodes[mp].Occupied? && !IsAnchor(nodes[..], mp)
      ensures FindPred(nodes[..], mp, 0) == Some(p)
    {
      ghost var s := nodes[..];
      ghost var ch :| ChainsOk(s, ch);
      var a := Home(nodes[mp].hash, nodes.Length);
      ghost var q := NonAnchorPosition(s, ch, mp);
      ghost var j := 0;
      p := a;
      WalkTowards(s, ch, a, q, j);
      while nodes[p].next != mp
        invariant j < q && ch[a][j] == p
        invariant p < |s| && s[p].Occupied? && (s[p].next == mp ==> FindPred(s, mp, 0) == Some(p))
        invariant s[p].next != mp ==> j + 1 < q && s[p].next == ch[a][j + 1]
        decreases q - j
      {
        p := nodes[p].next;
        j := j + 1;
        WalkTowards(s, ch, a, q, j);
      }
    }

    /**
     * Placement of a key that is not stored: into its empty home slot; else
     * into a slot from the cursor, after the anchor in the home slot, or in
     * place of a node of another chain, which moves to the free slot.  False
     * when the cursor finds no free slot; the nodes are then unchanged.
     */
    method Insert(k: string, v: V, h: u32) returns (ok: bool)
      requires WellFormed(State()) && Linked(nodes[..])
      modifies this, nodes
      ensures nodes == old(nodes) && count == old(count)
      ensures ok == Place(old(State()), k, v, h).Some?
      ensures ok ==> State() == Place(old(State()), k, v, h).value
      ensures !ok ==> nodes[..] == old(nodes[..]) && freeCursor <= old(freeCursor)
    {
      var mp := Home(h, nodes.Length);
      if nodes[mp].Empty? {
        nodes[mp] := Occupied(k, v, h, NoNext);
        return true;
      }
      var f := FindFreeSlot();
      if f.None? {
        return false;
      }
      var occ := nodes[mp];
      if Home(occ.hash, nodes.Length) == mp {
        nodes[f.value] := Occupied(k, v, h, occ.next);
        nodes[mp] := occ.(next := f.value);
      } else {
        var p := FindPredecessor(mp);
        nodes[f.value] := occ;
        nodes[p] := nodes[p].(next := f.value);
        nodes[mp] := Occupied(k, v, h, NoNext);
      }
      return true;
    }

    /**
     * tiny_hash_resize: a fresh array of `newCap` slots with a fresh cursor,
     * into which every entry is placed again in ascending slot order.
     */
    method Resize(newCap: nat)
      requires Valid() && newCap > 0 && count <= newCap
      modifies this
      ensures Valid() && fresh(nodes)
      ensures State() == Slots.Resize(old(State()), newCap)
      ensures count == old(count) && Contents(nodes[..]) == old(Contents(nodes[..]))
    {
      var src := nodes;
      ghost var s := src[..];
      ghost var t := State();
      nodes := new Node<V>[newCap](_ => Empty);
      freeCursor := newCap;
      assert State() == Replay(s, 0, newCap);
      var i := 0;
      while i < src.Length
        invariant i <= src.Length && src[..] == s && fresh(nodes) && nodes.Length == newCap && count == old(count)
        invariant State() == Replay(s, i, newCap)
        decreases src.Length - i
      {
        if src[i].Occupied? {
          ReplayStep(s, i, newCap);
          var _ := Insert(src[i].key, src[i].value, src[i].hash);
        }
        i := i + 1;
      }
      assert s[..|s|] == s;
      assert State() == Slots.Resize(t, newCap);
      ResizeMeaning(t, newCap, hasher);
    }

    /**
     * tiny_hash_put: overwrite the value of a stored key, otherwise insert it
     * as a new entry.
     */
    method Put(k: string, v: V)
      requires Valid()
      modifies this, nodes
      ensures Valid() && (nodes == old(nodes) || fresh(nodes))
      ensures State() == Slots.Put(old(State()), k, v, hasher(k), maxFullNum, maxFullDen)
      ensures Contents(nodes[..]) == old(Contents(nodes[..]))[k := v]
      ensures count == old(count) + (if k in old(Contents(nodes[..])) then 0 else 1)
    {
      ghost var t := State();
      ContentsFind(t.slots, k);
      var i, _ := FindNode(k);
      if i.Some? {
        OverwriteMeaning(t, k, v, hasher);
        nodes[i.value] := nodes[i.value].(value := v);
        return;
      }
      InsertNew(k, v);
    }

    /**
     * A new key: grow first when the load threshold is due, place the key,
     * and if the cursor finds no free slot grow and place it again.
     */
    method InsertNew(k: string, v: V)
      requires Valid() && IndexOf(nodes[..], k, 0).None?
      modifies this, nodes
      ensures Valid() && (nodes == old(nodes) || fresh(nodes))
      ensures State() == Slots.Put(old(State()), k, v, hasher(k), maxFullNum, maxFullDen)
      ensures Contents(nodes[..]) == old(Contents(nodes[..]))[k := v]
      ensures count == old(count) + 1
    {
      ghost var t := State();
      ContentsFind(t.slots, k);
      PutNewMeaning(t, k, v, maxFullNum, maxFullDen, hasher);
      var h := hasher(k);
      CountAtMostCapacity(nodes[..]);
      if maxFullNum > 0 && (count + 1) * maxFullDen > maxFullNum * nodes.Length {
        Resize(2 * nodes.Length);
      }
      ghost var t1 := State();
      assert t1 == if GrowDue(t, maxFullNum, maxFullDen) then Grow(t) else t;
      var ok := Insert(k, v, h);
      if !ok {
        CountAtMostCapacity(nodes[..]);
        Resize(2 * nodes.Length);
        assert State() == Grow(t1);
        GrowMeaning(t1, hasher);
        PlaceSucceeds(State(), k, v, h);
        ok := Insert(k, v, h);
      }
      count := count + 1;
    }

    /**
     * tiny_hash_remove: 0 when the key was stored and is now removed,
     * nonzero when it was not stored.  A node reached through a predecessor
     * is spliced out; a lone anchor's slot is emptied; an anchor with a
     * successor takes over the successor's entry and the successor's slot is
     * emptied.
     */
    method Remove(k: string) returns (r: int)
      requires Valid()
      modifies nodes, this
      ensures Valid() && nodes == old(nodes)
      ensures (State(), r == 0) == Slots.Remove(old(State()), k)
      ensures r == 0 <==> k in old(Contents(nodes[..]))
      ensures Contents(nodes[..]) == old(Contents(nodes[..])) - {k}
      ensures count == old(count) - (if r == 0 then 1 else 0)
    {
      RemoveMeaning(State(), k, hasher);
      var i, prev := FindNode(k);
      if i.None? {
        return -1;
      }
      var n := i.value;
      if prev != NoNext {
        nodes[prev] := nodes[prev].(next := nodes[n].next);
        nodes[n] := Empty;
      } else if nodes[n].next == NoNext {
        nodes[n] := Empty;
      } else {
        var succ := nodes[n].next;
        nodes[n] := nodes[succ];
        nodes[succ] := Empty;
      }
      count := count - 1;
      return 0;
    }

    /** tiny_hash_get: the value stored under `k`, None for the NULL result. */
    method Get(k: string) returns (r: Option<V>)
      requires Valid()
      ensures r == Lookup(nodes[..], k)
      ensures r == if k in Contents(nodes[..]) then Some(Contents(nodes[..])[k]) else None
    {
      var i, _ := FindNode(k);
      LookupContents(nodes[..], k);
      if i.None? {
        return None;
      }
      return Some(nodes[i.value].value);
    }

    /** tiny_hash_exists. */
    method Exists(k: string) returns (b: bool)
      requires Valid()
      ensures b <==> k in Contents(nodes[..])
    {
      var i, _ := FindNode(k);
      ContentsFind(nodes[..], k);
      return i.Some?;
    }

    /** tiny_hash_count: the number of stored keys. */
    method Count() returns (c: nat)
      requires Valid()
      ensures c == |Contents(nodes[..])|
    {
      CountIsSize(nodes[..]);
      return count;
    }

    /** tiny_hash_dump: (slot, hash, next) of every occupied slot, in slot
        order, one entry per stored key. */
    method Dump() returns (d: seq<(int, int, int)>)
      requires Valid()
      ensures d == Slots.Dump(nodes[..])
      ensures |d| == count
    {
      d := [];
      var i := nodes.Length;
      while i > 0
        invariant 0 <= i <= nodes.Length
        invariant d == DumpFrom(nodes[..], i)
      {
        i := i - 1;
        var n := nodes[i];
        if n.Occupied? {
          d := [(i, n.hash as int, n.next)] + d;
        }
      }
      DumpCount(nodes[..]);
    }
  }
}
