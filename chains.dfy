/**
 * The chain structure of a layout.  A ghost `ch` lists, for every slot `a`,
 * the chain anchored at `a` (empty when slot `a` holds no anchor): it starts
 * at `a`, every member is occupied, has home `a` and links to the next member
 * (the last one to NoNext), no member repeats, and every occupied slot is a
 * member of the chain of its home slot.  From this follow the properties of
 * the table's links: each slot has at most one predecessor, anchors have
 * none, and every key is reachable from its home slot.
 */
module Chains {
  import opened Uint32
  import opened Slots

  /** The link that member `j` of chain `c` must carry. */
  function NextIn(c: seq<nat>, j: nat): int {
    if j + 1 < |c| then c[j + 1] else NoNext
  }

  /** Each non-empty chain starts at its own slot. */
  ghost predicate Anchored(ch: seq<seq<nat>>) {
    forall a | 0 <= a < |ch| && ch[a] != [] :: ch[a][0] == a
  }

  /** Member `j` of chain `a` is an occupied slot with home `a` carrying the right link. */
  ghost predicate MemberOk<V>(s: seq<Node<V>>, ch: seq<seq<nat>>, a: nat, j: nat)
    requires a < |ch| && j < |ch[a]|
  {
    ch[a][j] < |s| && s[ch[a][j]].Occupied? &&
    Home(s[ch[a][j]].hash, |s|) == a && s[ch[a][j]].next == NextIn(ch[a], j)
  }

  ghost predicate MembersOk<V>(s: seq<Node<V>>, ch: seq<seq<nat>>)
    requires |s| > 0
  {
    forall a, j | 0 <= a < |ch| && 0 <= j < |ch[a]| :: MemberOk(s, ch, a, j)
  }

  /** No chain visits a slot twice. */
  ghost predicate Distinct(ch: seq<seq<nat>>) {
    forall a, j1, j2 | 0 <= a < |ch| && 0 <= j1 < j2 < |ch[a]| :: ch[a][j1] != ch[a][j2]
  }

  /** Every occupied slot is a member of the chain of its home slot. */
  ghost predicate Covered<V>(s: seq<Node<V>>, ch: seq<seq<nat>>)
    requires |ch| == |s| > 0
  {
    forall i | 0 <= i < |s| && s[i].Occupied? :: i in ch[Home(s[i].hash, |s|)]
  }

  ghost predicate ChainsOk<V>(s: seq<Node<V>>, ch: seq<seq<nat>>) {
    |ch| == |s| > 0 && Anchored(ch) && MembersOk(s, ch) && Distinct(ch) && Covered(s, ch)
  }

  /** The links of `s` form well-shaped chains. */
  ghost predicate Linked<V>(s: seq<Node<V>>) {
    exists ch :: ChainsOk(s, ch)
  }

  /** The full representation invariant of a table layout. */
  ghost predicate Inv<V>(t: Table<V>, hasher: string -> u32) {
    WellFormed(t) && Linked(t.slots) && KeysUnique(t.slots) && HashesMatch(t.slots, hasher)
  }

  /** Member `j` of the chain anchored at `a`. */
  lemma Member<V>(s: seq<Node<V>>, ch: seq<seq<nat>>, a: nat, j: nat)
    requires ChainsOk(s, ch) && a < |ch| && j < |ch[a]|
    ensures ch[a][j] < |s| && s[ch[a][j]].Occupied? && Home(s[ch[a][j]].hash, |s|) == a
    ensures s[ch[a][j]].next == NextIn(ch[a], j)
  {
    assert MemberOk(s, ch, a, j);
  }

  /** The position of an occupied slot in the chain of its home slot. */
  lemma PositionOf<V>(s: seq<Node<V>>, ch: seq<seq<nat>>, i: nat) returns (q: nat)
    requires ChainsOk(s, ch) && i < |s| && s[i].Occupied?
    ensures q < |ch[Home(s[i].hash, |s|)]| && ch[Home(s[i].hash, |s|)][q] == i
  {
    var a := Home(s[i].hash, |s|);
    assert i in ch[a];
    q :| 0 <= q < |ch[a]| && ch[a][q] == i;
  }

  /** A slot starts a non-empty chain exactly when it holds an anchor. */
  lemma AnchorChain<V>(s: seq<Node<V>>, ch: seq<seq<nat>>, a: nat)
    requires ChainsOk(s, ch) && a < |s|
    ensures ch[a] != [] <==> IsAnchor(s, a)
  {
    if ch[a] != [] {
      Member(s, ch, a, 0);
    }
    if IsAnchor(s, a) {
      var q := PositionOf(s, ch, a);
    }
  }

  /** Links never leave the chain: the slot a node links to is the next member. */
  lemma LinkFollowsChain<V>(s: seq<Node<V>>, ch: seq<seq<nat>>, p: nat, b: nat, j: nat)
    requires ChainsOk(s, ch) && b < |ch| && j < |ch[b]| && ch[b][j] == p
    requires p < |s| && s[p].Occupied? && s[p].next != NoNext
    ensures j + 1 < |ch[b]| && s[p].next == ch[b][j + 1]
  {
    Member(s, ch, b, j);
  }

  /**
   * In-degree at most one: the only node linking to member `q > 0` of a chain
   * is member `q - 1`, so the scan for a predecessor finds exactly it.
   */
  lemma PredecessorOf<V>(s: seq<Node<V>>, ch: seq<seq<nat>>, a: nat, q: nat)
    requires ChainsOk(s, ch) && a < |ch| && 0 < q < |ch[a]|
    ensures FindPred(s, ch[a][q], 0) == Some(ch[a][q - 1])
    ensures forall p | 0 <= p < |s| && s[p].Occupied? && s[p].next == ch[a][q] :: p == ch[a][q - 1]
  {
    forall p | 0 <= p < |s| && s[p].Occupied? && s[p].next == ch[a][q]
      ensures p == ch[a][q - 1]
    {
      var j := PositionOf(s, ch, p);
      var b := Home(s[p].hash, |s|);
      LinkFollowsChain(s, ch, p, b, j);
      Member(s, ch, b, j + 1);
      Member(s, ch, a, q);
      assert b == a;
      assert j + 1 == q;
    }
    Member(s, ch, a, q - 1);
    var r := FindPred(s, ch[a][q], 0);
  }

  /** No node links to an anchor. */
  lemma NoPredecessorOfAnchor<V>(s: seq<Node<V>>, ch: seq<seq<nat>>, a: nat)
    requires ChainsOk(s, ch) && a < |s| && IsAnchor(s, a)
    ensures FindPred(s, a, 0) == None
  {
    AnchorChain(s, ch, a);
    Member(s, ch, a, 0);
    var r := FindPred(s, a, 0);
    if r.Some? {
      var p := r.value;
      var j := PositionOf(s, ch, p);
      var b := Home(s[p].hash, |s|);
      LinkFollowsChain(s, ch, p, b, j);
      Member(s, ch, b, j + 1);
    }
  }

  /** Every link of a chained layout is NoNext or a slot index. */
  lemma LinkedWellFormed<V>(s: seq<Node<V>>, ch: seq<seq<nat>>, i: nat)
    requires ChainsOk(s, ch) && i < |s| && s[i].Occupied?
    ensures LinkOk(s[i].next, |s|)
  {
    var q := PositionOf(s, ch, i);
    var a := Home(s[i].hash, |s|);
    Member(s, ch, a, q);
    if q + 1 < |ch[a]| {
      Member(s, ch, a, q + 1);
    }
  }

  /** The chains of a fresh array are all empty. */
  lemma FreshLinked<V>(cap: nat)
    requires cap > 0
    ensures ChainsOk(Fresh<V>(cap).slots, seq(cap, _ => []))
    ensures Linked(Fresh<V>(cap).slots)
  {
    var ch: seq<seq<nat>> := seq(cap, _ => []);
    assert ChainsOk(Fresh<V>(cap).slots, ch);
  }

  // ---------------------------------------------------------------------
  // Placement keeps the chains well shaped.
  // ---------------------------------------------------------------------

  /** An empty home slot takes the new key as a lone anchor. */
  lemma PlaceInEmptyHome<V>(s: seq<Node<V>>, ch: seq<seq<nat>>, k: string, v: V, h: u32)
    returns (ch': seq<seq<nat>>)
    requires ChainsOk(s, ch)
    requires s[Home(h, |s|)].Empty?
    ensures ChainsOk(s[Home(h, |s|) := Occupied(k, v, h, NoNext)], ch')
  {
    var mp := Home(h, |s|);
    var s' := s[mp := Occupied(k, v, h, NoNext)];
    ch' := ch[mp := [mp]];
    AnchorChain(s, ch, mp);
    forall a, j | 0 <= a < |ch'| && 0 <= j < |ch'[a]|
      ensures MemberOk(s', ch', a, j)
    {
      if a != mp {
        Member(s, ch, a, j);
      }
    }
    forall i | 0 <= i < |s'| && s'[i].Occupied?
      ensures i in ch'[Home(s'[i].hash, |s'|)]
    {
      if i != mp {
        var q := PositionOf(s, ch, i);
      }
    }
  }

  lemma AfterAnchorMembers<V>(s: seq<Node<V>>, ch: seq<seq<nat>>, s': seq<Node<V>>, ch': seq<seq<nat>>,
                              mp: nat, f: nat, x: Node<V>)
    requires ChainsOk(s, ch) && mp < |s| && ch[mp] != [] && f < |s| && s[f].Empty? && s[mp].Occupied?
    requires x.Occupied? && Home(x.hash, |s|) == mp && x.next == s[mp].next
    requires s' == s[f := x][mp := s[mp].(next := f)]
    requires ch' == ch[mp := [mp, f] + ch[mp][1..]]
    ensures MembersOk(s', ch')
  {
    Member(s, ch, mp, 0);
    forall a, j | 0 <= a < |ch'| && 0 <= j < |ch'[a]|
      ensures MemberOk(s', ch', a, j)
    {
      if a != mp {
        Member(s, ch, a, j);
        assert ch[a][j] != f && ch[a][j] != mp;
      } else if j >= 2 {
        Member(s, ch, mp, j - 1);
        assert ch[mp][j - 1] != mp;
        assert ch'[mp][j] == ch[mp][j - 1];
      } else if j == 1 {
        assert ch'[mp][1] == f;
      }
    }
  }

  lemma AfterAnchorDistinct<V>(s: seq<Node<V>>, ch: seq<seq<nat>>, ch': seq<seq<nat>>, mp: nat, f: nat)
    requires ChainsOk(s, ch) && mp < |s| && ch[mp] != [] && f < |s| && s[f].Empty?
    requires ch' == ch[mp := [mp, f] + ch[mp][1..]]
    ensures Distinct(ch')
  {
    Member(s, ch, mp, 0);
    forall a, j1, j2 | 0 <= a < |ch'| && 0 <= j1 < j2 < |ch'[a]|
      ensures ch'[a][j1] != ch'[a][j2]
    {
      if a == mp && j2 >= 2 {
        Member(s, ch, mp, j2 - 1);
        assert ch'[a][j2] == ch[mp][j2 - 1];
        if j1 >= 2 {
          assert ch'[a][j1] == ch[mp][j1 - 1];
        } else if j1 == 0 {
          assert ch[mp][0] != ch[mp][j2 - 1];
        }
      }
    }
  }

  lemma AfterAnchorCovered<V>(s: seq<Node<V>>, ch: seq<seq<nat>>, s': seq<Node<V>>, ch': seq<seq<nat>>,
                              mp: nat, f: nat, x: Node<V>)
    requires ChainsOk(s, ch) && mp < |s| && ch[mp] != [] && f < |s| && s[f].Empty? && s[mp].Occupied?
    requires x.Occupied? && Home(x.hash, |s|) == mp
    requires s' == s[f := x][mp := s[mp].(next := f)]
    requires ch' == ch[mp := [mp, f] + ch[mp][1..]]
    ensures Covered(s', ch')
  {
    Member(s, ch, mp, 0);
    forall i | 0 <= i < |s'| && s'[i].Occupied?
      ensures i in ch'[Home(s'[i].hash, |s'|)]
    {
      if i == f {
        assert ch'[mp][1] == f;
      } else if i == mp {
        assert ch'[mp][0] == mp;
      } else {
        var q := PositionOf(s, ch, i);
        var b := Home(s[i].hash, |s|);
        if b == mp {
          assert ch'[mp][q + 1] == i;
        }
      }
    }
  }

  /** A key colliding with an anchor becomes the anchor's immediate successor in slot `f`. */
  lemma PlaceAfterAnchor<V>(s: seq<Node<V>>, ch: seq<seq<nat>>, f: nat, k: string, v: V, h: u32)
    returns (ch': seq<seq<nat>>)
    requires ChainsOk(s, ch)
    requires IsAnchor(s, Home(h, |s|))
    requires f < |s| && s[f].Empty?
    ensures var mp := Home(h, |s|);
            ChainsOk(s[f := Occupied(k, v, h, s[mp].next)][mp := s[mp].(next := f)], ch')
  {
    var mp := Home(h, |s|);
    var x := Occupied(k, v, h, s[mp].next);
    var s' := s[f := x][mp := s[mp].(next := f)];
    AnchorChain(s, ch, mp);
    ch' := ch[mp := [mp, f] + ch[mp][1..]];
    AfterAnchorMembers(s, ch, s', ch', mp, f, x);
    AfterAnchorDistinct(s, ch, ch', mp, f);
    AfterAnchorCovered(s, ch, s', ch', mp, f, x);
  }

  /** Chain `a` with its member `q` replaced by `f`, and a lone anchor at the old slot. */
  function RelocatedChains(ch: seq<seq<nat>>, a: nat, q: nat, f: nat): seq<seq<nat>>
    requires a < |ch| && q < |ch[a]| && ch[a][q] < |ch|
  {
    var ca: seq<nat> := ch[a][q := f];
    var cm: seq<nat> := [ch[a][q]];
    ch[a := ca][ch[a][q] := cm]
  }

  lemma RelocationMembers<V>(s: seq<Node<V>>, ch: seq<seq<nat>>, s': seq<Node<V>>, ch': seq<seq<nat>>,
                             a: nat, q: nat, f: nat, x: Node<V>)
    requires ChainsOk(s, ch) && a < |s| && 0 < q < |ch[a]| && f < |s| && s[f].Empty?
    requires MemberOk(s, ch, a, q) && MemberOk(s, ch, a, q - 1)
    requires ch[a][q] != a && ch[ch[a][q]] == []
    requires x.Occupied? && Home(x.hash, |s|) == ch[a][q] && x.next == NoNext
    requires s' == s[f := s[ch[a][q]]][ch[a][q - 1] := s[ch[a][q - 1]].(next := f)][ch[a][q] := x]
    requires ch' == RelocatedChains(ch, a, q, f)
    ensures MembersOk(s', ch')
  {
    var mp := ch[a][q];
    var p := ch[a][q - 1];
    Member(s, ch, a, q);
    Member(s, ch, a, q - 1);
    forall b, j | 0 <= b < |ch'| && 0 <= j < |ch'[b]|
      ensures MemberOk(s', ch', b, j)
    {
      if b == mp {
      } else if b == a {
        Member(s, ch, a, j);
        if j != q && j != q - 1 {
          assert ch[a][j] != mp && ch[a][j] != p && ch[a][j] != f;
          assert ch'[a][j] == ch[a][j];
        }
      } else {
        Member(s, ch, b, j);
        assert ch[b][j] != mp && ch[b][j] != p && ch[b][j] != f;
      }
    }
  }

  lemma RelocationDistinct<V>(s: seq<Node<V>>, ch: seq<seq<nat>>, ch': seq<seq<nat>>, a: nat, q: nat, f: nat)
    requires ChainsOk(s, ch) && a < |s| && 0 < q < |ch[a]| && f < |s| && s[f].Empty?
    requires MemberOk(s, ch, a, q)
    requires ch' == RelocatedChains(ch, a, q, f)
    ensures Distinct(ch')
  {
    var mp := ch[a][q];
    forall b, j1, j2 | 0 <= b < |ch'| && 0 <= j1 < j2 < |ch'[b]|
      ensures ch'[b][j1] != ch'[b][j2]
    {
      if b == a && b != mp {
        Member(s, ch, a, j1);
        Member(s, ch, a, j2);
      }
    }
  }

  lemma RelocationCovered<V>(s: seq<Node<V>>, ch: seq<seq<nat>>, s': seq<Node<V>>, ch': seq<seq<nat>>,
                             a: nat, q: nat, f: nat, x: Node<V>)
    requires ChainsOk(s, ch) && a < |s| && 0 < q < |ch[a]| && f < |s| && s[f].Empty?
    requires MemberOk(s, ch, a, q) && MemberOk(s, ch, a, q - 1)
    requires ch[a][q] != a && ch[ch[a][q]] == []
    requires x.Occupied? && Home(x.hash, |s|) == ch[a][q]
    requires s' == s[f := s[ch[a][q]]][ch[a][q - 1] := s[ch[a][q - 1]].(next := f)][ch[a][q] := x]
    requires ch' == RelocatedChains(ch, a, q, f)
    ensures Covered(s', ch')
  {
    var mp := ch[a][q];
    var p := ch[a][q - 1];
    Member(s, ch, a, q);
    Member(s, ch, a, q - 1);
    forall i | 0 <= i < |s'| && s'[i].Occupied?
      ensures i in ch'[Home(s'[i].hash, |s'|)]
    {
      if i == mp {
        assert ch'[mp][0] == mp;
      } else if i == f {
        assert ch'[a][q] == f;
      } else if i == p {
        assert ch'[a][q - 1] == p;
      } else {
        var j := PositionOf(s, ch, i);
        var b := Home(s[i].hash, |s|);
        if b == a {
          assert ch'[a][j] == i;
        }
      }
    }
  }

  /**
   * A key whose home slot holds a node of another chain: that node moves to
   * the free slot `f`, its predecessor is relinked to `f`, and the key
   * becomes a lone anchor.
   */
  lemma PlaceByRelocation<V>(s: seq<Node<V>>, ch: seq<seq<nat>>, f: nat, k: string, v: V, h: u32)
    returns (p: nat, ch': seq<seq<nat>>)
    requires ChainsOk(s, ch)
    requires s[Home(h, |s|)].Occupied? && !IsAnchor(s, Home(h, |s|))
    requires f < |s| && s[f].Empty?
    ensures FindPred(s, Home(h, |s|), 0) == Some(p)
    ensures p < |s| && s[p].Occupied?
    ensures var mp := Home(h, |s|);
            ChainsOk(s[f := s[mp]][p := s[p].(next := f)][mp := Occupied(k, v, h, NoNext)], ch')
  {
    var mp := Home(h, |s|);
    var a := Home(s[mp].hash, |s|);
    var q := PositionOf(s, ch, mp);
    AnchorChain(s, ch, a);
    AnchorChain(s, ch, mp);
    Member(s, ch, a, 0);
    PredecessorOf(s, ch, a, q);
    p := ch[a][q - 1];
    Member(s, ch, a, q - 1);
    var x := Occupied(k, v, h, NoNext);
    var s' := s[f := s[mp]][p := s[p].(next := f)][mp := x];
    ch' := RelocatedChains(ch, a, q, f);
    RelocationMembers(s, ch, s', ch', a, q, f, x);
    RelocationDistinct(s, ch, ch', a, q, f);
    RelocationCovered(s, ch, s', ch', a, q, f, x);
  }

  /** Placement keeps the layout chained; it fails only when the free-slot search does. */
  lemma PlaceLinked<V>(t: Table<V>, k: string, v: V, h: u32)
    requires WellFormed(t) && Linked(t.slots)
    ensures Place(t, k, v, h).Some? ==> Linked(Place(t, k, v, h).value.slots)
    ensures Place(t, k, v, h).None? ==>
              t.slots[Home(h, |t.slots|)].Occupied? && FindFree(t.slots, t.cursor).None?
  {
    var s := t.slots;
    var ch :| ChainsOk(s, ch);
    var mp := Home(h, |s|);
    if s[mp].Empty? {
      var ch' := PlaceInEmptyHome(s, ch, k, v, h);
    } else if FindFree(s, t.cursor).Some? {
      var f := FindFree(s, t.cursor).value;
      if IsAnchor(s, mp) {
        var ch' := PlaceAfterAnchor(s, ch, f, k, v, h);
      } else {
        var p, ch' := PlaceByRelocation(s, ch, f, k, v, h);
      }
    }
  }

  /** A replay always yields a chained layout. */
  lemma {:induction false} ReplayLinked<V>(src: seq<Node<V>>, n: nat, cap: nat)
    requires n <= |src| && cap > 0
    ensures Linked(Replay(src, n, cap).slots)
  {
    if n == 0 {
      FreshLinked<V>(cap);
    } else {
      ReplayLinked(src, n - 1, cap);
      var e := src[n - 1];
      if e.Occupied? {
        PlaceLinked(Replay(src, n - 1, cap), e.key, e.value, e.hash);
      }
    }
  }

  // ---------------------------------------------------------------------
  // Removal keeps the chains well shaped.
  // ---------------------------------------------------------------------

  lemma SplicedMembers<V>(s: seq<Node<V>>, ch: seq<seq<nat>>, s': seq<Node<V>>, ch': seq<seq<nat>>, a: nat, q: nat)
    requires ChainsOk(s, ch) && a < |ch| && 0 < q < |ch[a]|
    requires MemberOk(s, ch, a, q) && MemberOk(s, ch, a, q - 1)
    requires s' == s[ch[a][q - 1] := s[ch[a][q - 1]].(next := s[ch[a][q]].next)][ch[a][q] := Empty]
    requires ch' == ch[a := ch[a][..q] + ch[a][q + 1..]]
    ensures MembersOk(s', ch')
  {
    var i := ch[a][q];
    var p := ch[a][q - 1];
    Member(s, ch, a, q);
    Member(s, ch, a, q - 1);
    forall b, j | 0 <= b < |ch'| && 0 <= j < |ch'[b]|
      ensures MemberOk(s', ch', b, j)
    {
      if b == a {
        var j0 := if j < q then j else j + 1;
        Member(s, ch, a, j0);
        assert ch'[a][j] == ch[a][j0];
        assert ch[a][j0] != i;
        if j0 != q - 1 {
          assert ch[a][j0] != p;
        }
        if j + 1 < |ch'[a]| {
          assert ch'[a][j + 1] == ch[a][if j + 1 < q then j + 1 else j + 2];
        }
      } else {
        Member(s, ch, b, j);
        assert ch[b][j] != i && ch[b][j] != p;
      }
    }
  }

  lemma SplicedDistinct(ch: seq<seq<nat>>, ch': seq<seq<nat>>, a: nat, q: nat)
    requires Distinct(ch) && a < |ch| && 0 < q < |ch[a]|
    requires ch' == ch[a := ch[a][..q] + ch[a][q + 1..]]
    ensures Distinct(ch')
  {
    forall b, j1, j2 | 0 <= b < |ch'| && 0 <= j1 < j2 < |ch'[b]|
      ensures ch'[b][j1] != ch'[b][j2]
    {
      if b == a {
        var k1 := if j1 < q then j1 else j1 + 1;
        var k2 := if j2 < q then j2 else j2 + 1;
        assert ch'[a][j1] == ch[a][k1] && ch'[a][j2] == ch[a][k2];
      }
    }
  }

  lemma SplicedCovered<V>(s: seq<Node<V>>, ch: seq<seq<nat>>, s': seq<Node<V>>, ch': seq<seq<nat>>, a: nat, q: nat)
    requires ChainsOk(s, ch) && a < |ch| && 0 < q < |ch[a]|
    requires MemberOk(s, ch, a, q) && MemberOk(s, ch, a, q - 1)
    requires s' == s[ch[a][q - 1] := s[ch[a][q - 1]].(next := s[ch[a][q]].next)][ch[a][q] := Empty]
    requires ch' == ch[a := ch[a][..q] + ch[a][q + 1..]]
    ensures Covered(s', ch')
  {
    Member(s, ch, a, q);
    Member(s, ch, a, q - 1);
    forall x | 0 <= x < |s'| && s'[x].Occupied?
      ensures x in ch'[Home(s'[x].hash, |s'|)]
    {
      var j := PositionOf(s, ch, x);
      var b := Home(s[x].hash, |s|);
      if b == a {
        if j < q {
          assert ch'[a][j] == x;
        } else {
          assert ch'[a][j - 1] == x;
        }
      }
    }
  }

  /** Splicing out member `q > 0` of chain `a`. */
  lemma RemoveSpliced<V>(s: seq<Node<V>>, ch: seq<seq<nat>>, a: nat, q: nat) returns (ch': seq<seq<nat>>)
    requires ChainsOk(s, ch) && a < |ch| && 0 < q < |ch[a]|
    ensures MemberOk(s, ch, a, q) && MemberOk(s, ch, a, q - 1)
    ensures var i := ch[a][q];
            var p := ch[a][q - 1];
            ChainsOk(s[p := s[p].(next := s[i].next)][i := Empty], ch')
  {
    Member(s, ch, a, q);
    Member(s, ch, a, q - 1);
    var i := ch[a][q];
    var p := ch[a][q - 1];
    var s' := s[p := s[p].(next := s[i].next)][i := Empty];
    ch' := ch[a := ch[a][..q] + ch[a][q + 1..]];
    SplicedMembers(s, ch, s', ch', a, q);
    SplicedDistinct(ch, ch', a, q);
    SplicedCovered(s, ch, s', ch', a, q);
  }

  /** Emptying a lone anchor. */
  lemma RemoveLoneAnchor<V>(s: seq<Node<V>>, ch: seq<seq<nat>>, a: nat) returns (ch': seq<seq<nat>>)
    requires ChainsOk(s, ch) && a < |s| && IsAnchor(s, a) && s[a].next == NoNext
    ensures ChainsOk(s[a := Empty], ch')
  {
    AnchorChain(s, ch, a);
    Member(s, ch, a, 0);
    var s' := s[a := Empty];
    ch' := ch[a := []];
    forall b, j | 0 <= b < |ch'| && 0 <= j < |ch'[b]|
      ensures MemberOk(s', ch', b, j)
    {
      Member(s, ch, b, j);
    }
    forall x | 0 <= x < |s'| && s'[x].Occupied?
      ensures x in ch'[Home(s'[x].hash, |s'|)]
    {
      var j := PositionOf(s, ch, x);
    }
  }

  lemma AbsorbMembers<V>(s: seq<Node<V>>, ch: seq<seq<nat>>, s': seq<Node<V>>, ch': seq<seq<nat>>, a: nat)
    requires ChainsOk(s, ch) && a < |s| && |ch[a]| >= 2 && MemberOk(s, ch, a, 1)
    requires s' == s[a := s[ch[a][1]]][ch[a][1] := Empty]
    requires ch' == ch[a := [a] + ch[a][2..]]
    ensures MembersOk(s', ch')
  {
    var n := ch[a][1];
    Member(s, ch, a, 0);
    Member(s, ch, a, 1);
    forall b, j | 0 <= b < |ch'| && 0 <= j < |ch'[b]|
      ensures MemberOk(s', ch', b, j)
    {
      if b == a {
        if j > 0 {
          Member(s, ch, a, j + 1);
          assert ch'[a][j] == ch[a][j + 1];
          assert ch[a][j + 1] != n && ch[a][j + 1] != a;
        } else if |ch'[a]| > 1 {
          assert ch'[a][1] == ch[a][2];
        }
      } else {
        Member(s, ch, b, j);
        assert ch[b][j] != n && ch[b][j] != a;
      }
    }
  }

  lemma AbsorbDistinct(ch: seq<seq<nat>>, ch': seq<seq<nat>>, a: nat)
    requires Distinct(ch) && a < |ch| && |ch[a]| >= 2 && ch[a][0] == a
    requires ch' == ch[a := [a] + ch[a][2..]]
    ensures Distinct(ch')
  {
    forall b, j1, j2 | 0 <= b < |ch'| && 0 <= j1 < j2 < |ch'[b]|
      ensures ch'[b][j1] != ch'[b][j2]
    {
      if b == a {
        assert ch'[a][j2] == ch[a][j2 + 1];
        if j1 == 0 {
          assert ch[a][0] != ch[a][j2 + 1];
        } else {
          assert ch'[a][j1] == ch[a][j1 + 1];
        }
      }
    }
  }

  lemma AbsorbCovered<V>(s: seq<Node<V>>, ch: seq<seq<nat>>, s': seq<Node<V>>, ch': seq<seq<nat>>, a: nat)
    requires ChainsOk(s, ch) && a < |s| && |ch[a]| >= 2 && MemberOk(s, ch, a, 1)
    requires s' == s[a := s[ch[a][1]]][ch[a][1] := Empty]
    requires ch' == ch[a := [a] + ch[a][2..]]
    ensures Covered(s', ch')
  {
    Member(s, ch, a, 0);
    Member(s, ch, a, 1);
    forall x | 0 <= x < |s'| && s'[x].Occupied?
      ensures x in ch'[Home(s'[x].hash, |s'|)]
    {
      if x == a {
        assert ch'[a][0] == a;
      } else {
        var j := PositionOf(s, ch, x);
        var b := Home(s[x].hash, |s|);
        if b == a {
          assert ch'[a][j - 1] == x;
        }
      }
    }
  }

  /** An anchor with a successor absorbs the successor's entry. */
  lemma RemoveAnchorWithSuccessor<V>(s: seq<Node<V>>, ch: seq<seq<nat>>, a: nat) returns (ch': seq<seq<nat>>)
    requires ChainsOk(s, ch) && a < |s| && IsAnchor(s, a) && s[a].next != NoNext
    ensures 0 <= s[a].next < |s|
    ensures ChainsOk(s[a := s[s[a].next]][s[a].next := Empty], ch')
  {
    AnchorChain(s, ch, a);
    Member(s, ch, a, 0);
    Member(s, ch, a, 1);
    var s' := s[a := s[ch[a][1]]][ch[a][1] := Empty];
    ch' := ch[a := [a] + ch[a][2..]];
    AbsorbMembers(s, ch, s', ch', a);
    AbsorbDistinct(ch, ch', a);
    AbsorbCovered(s, ch, s', ch', a);
  }

  /** Removal keeps the layout chained. */
  lemma RemoveLinked<V>(t: Table<V>, k: string)
    requires WellFormed(t) && Linked(t.slots)
    ensures Linked(Remove(t, k).0.slots)
  {
    var s := t.slots;
    var ch :| ChainsOk(s, ch);
    match IndexOf(s, k, 0)
    case None =>
    case Some(i) =>
      var a := Home(s[i].hash, |s|);
      if a != i {
        var q := PositionOf(s, ch, i);
        AnchorChain(s, ch, a);
        Member(s, ch, a, 0);
        PredecessorOf(s, ch, a, q);
        var ch' := RemoveSpliced(s, ch, a, q);
      } else if s[i].next == NoNext {
        var ch' := RemoveLoneAnchor(s, ch, i);
      } else {
        var ch' := RemoveAnchorWithSuccessor(s, ch, i);
      }
  }

  // ---------------------------------------------------------------------
  // Facts that only depend on the links.
  // ---------------------------------------------------------------------

  /** Two layouts with the same occupied slots, hashes and links. */
  ghost predicate SameLinks<V>(s: seq<Node<V>>, s': seq<Node<V>>) {
    |s| == |s'| &&
    forall i | 0 <= i < |s| ::
      s[i].Occupied? == s'[i].Occupied? &&
      (s[i].Occupied? ==> s[i].hash == s'[i].hash && s[i].next == s'[i].next)
  }

  /** Chains depend only on occupancy, hashes and links. */
  lemma SameLinksLinked<V>(s: seq<Node<V>>, s': seq<Node<V>>)
    requires Linked(s) && SameLinks(s, s')
    ensures Linked(s')
  {
    var ch :| ChainsOk(s, ch);
    forall a, j | 0 <= a < |ch| && 0 <= j < |ch[a]|
      ensures MemberOk(s', ch, a, j)
    {
      Member(s, ch, a, j);
    }
    assert ChainsOk(s', ch);
  }

  /** No node links to itself. */
  lemma NoSelfLink<V>(s: seq<Node<V>>, i: nat)
    requires Linked(s) && i < |s| && s[i].Occupied?
    ensures s[i].next != i
  {
    var ch :| ChainsOk(s, ch);
    var j := PositionOf(s, ch, i);
    var a := Home(s[i].hash, |s|);
    Member(s, ch, a, j);
    if s[i].next != NoNext {
      LinkFollowsChain(s, ch, i, a, j);
    }
  }

  /** In a chained layout, the scan for a predecessor of a non-anchor succeeds. */
  lemma NonAnchorHasPredecessor<V>(s: seq<Node<V>>, i: nat)
    requires Linked(s) && i < |s| && s[i].Occupied? && !IsAnchor(s, i)
    ensures FindPred(s, i, 0).Some?
  {
    var ch :| ChainsOk(s, ch);
    var a := Home(s[i].hash, |s|);
    var q := PositionOf(s, ch, i);
    AnchorChain(s, ch, a);
    Member(s, ch, a, 0);
    PredecessorOf(s, ch, a, q);
  }

  /** A link leads to an occupied slot of the same chain, never back to the node itself. */
  lemma LinkTarget<V>(s: seq<Node<V>>, i: nat)
    requires Linked(s) && i < |s| && s[i].Occupied? && s[i].next != NoNext
    ensures 0 <= s[i].next < |s| && s[i].next != i && s[s[i].next].Occupied?
    ensures Home(s[s[i].next].hash, |s|) == Home(s[i].hash, |s|)
  {
    var ch :| ChainsOk(s, ch);
    var j := PositionOf(s, ch, i);
    var a := Home(s[i].hash, |s|);
    LinkFollowsChain(s, ch, i, a, j);
    Member(s, ch, a, j + 1);
    assert ch[a][j] != ch[a][j + 1];
  }

  // ---------------------------------------------------------------------
  // What a walk from the home slot sees.
  // ---------------------------------------------------------------------

  /** A key whose home slot is empty is stored nowhere. */
  lemma HomeFreeMisses<V>(s: seq<Node<V>>, k: string, hasher: string -> u32)
    requires Linked(s) && HashesMatch(s, hasher) && |s| > 0 && s[Home(hasher(k), |s|)].Empty?
    ensures IndexOf(s, k, 0).None?
  {
    var ch :| ChainsOk(s, ch);
    var mp := Home(hasher(k), |s|);
    var r := IndexOf(s, k, 0);
    if r.Some? {
      var q := PositionOf(s, ch, r.value);
      Member(s, ch, mp, 0);
    }
  }

  /**
   * A walk from an occupied home slot starts at position `j0` of the chain
   * of the occupant's home.  If the key is stored at all, that occupant is
   * the anchor of the key's own chain, the walk starts at its head, and the
   * key's slot is a member of that chain.
   */
  lemma WalkStart<V>(s: seq<Node<V>>, ch: seq<seq<nat>>, k: string, hasher: string -> u32, j0: nat)
    requires ChainsOk(s, ch) && HashesMatch(s, hasher)
    requires s[Home(hasher(k), |s|)].Occupied?
    requires var mp := Home(hasher(k), |s|);
             var b := Home(s[mp].hash, |s|);
             j0 < |ch[b]| && ch[b][j0] == mp
    ensures var mp := Home(hasher(k), |s|);
            IndexOf(s, k, 0).Some? ==>
              Home(s[mp].hash, |s|) == mp && j0 == 0 && IndexOf(s, k, 0).value in ch[mp]
  {
    var mp := Home(hasher(k), |s|);
    var b := Home(s[mp].hash, |s|);
    var r := IndexOf(s, k, 0);
    if r.Some? {
      var q := PositionOf(s, ch, r.value);
      Member(s, ch, mp, 0);
      assert b == mp;
    }
  }

  /**
   * A walk that reaches the end of a chain without meeting the key, and
   * started where the key's chain would begin, shows the key is stored
   * nowhere.
   */
  lemma WalkEnd<V>(s: seq<Node<V>>, ch: seq<seq<nat>>, k: string, b: nat, j0: nat, j: nat)
    requires ChainsOk(s, ch) && b < |ch| && j0 <= j < |ch[b]|
    requires forall x | j0 <= x <= j :: ch[b][x] < |s| && s[ch[b][x]].Occupied? && s[ch[b][x]].key != k
    requires s[ch[b][j]].next == NoNext
    requires IndexOf(s, k, 0).Some? ==> j0 == 0 && IndexOf(s, k, 0).value in ch[b]
    ensures IndexOf(s, k, 0).None?
  {
    Member(s, ch, b, j);
  }

  /** A non-anchor is a later member of the chain that starts at its home slot. */
  lemma NonAnchorPosition<V>(s: seq<Node<V>>, ch: seq<seq<nat>>, i: nat) returns (q: nat)
    requires ChainsOk(s, ch) && i < |s| && s[i].Occupied? && !IsAnchor(s, i)
    ensures var a := Home(s[i].hash, |s|);
            0 < q < |ch[a]| && ch[a][0] == a && ch[a][q] == i
  {
    q := PositionOf(s, ch, i);
  }

  /** One step of the walk from the head of chain `a` towards its member `q`. */
  lemma WalkTowards<V>(s: seq<Node<V>>, ch: seq<seq<nat>>, a: nat, q: nat, j: nat)
    requires ChainsOk(s, ch) && a < |ch| && j < q < |ch[a]|
    ensures ch[a][j] < |s| && s[ch[a][j]].Occupied?
    ensures s[ch[a][j]].next == ch[a][q] ==> FindPred(s, ch[a][q], 0) == Some(ch[a][j])
    ensures s[ch[a][j]].next != ch[a][q] ==> j + 1 < q && s[ch[a][j]].next == ch[a][j + 1]
  {
    Member(s, ch, a, j);
    if s[ch[a][j]].next == ch[a][q] {
      assert j + 1 == q;
      PredecessorOf(s, ch, a, q);
    }
  }
}
