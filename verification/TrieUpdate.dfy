/**
 What each rewiring of the trie does to the plain table: the three shapes an insertion can
 take, and the one or two splices of a removal.  Each keeps the shape invariant and changes the
 table in exactly one prefix.
 */
module TrieUpdate {
  import opened Maybe
  import opened TrieShape
  import opened TrieLookup
  import Address = AddressBits

  /** connect_node() */
  function Connect(t: Trie, s: Slot, n: Id): Trie
    requires n in t.nodes && SlotIn(t, s)
  {
    SlotSet(t.(nodes := t.nodes[n := t.nodes[n].(parent := s)]), s, Some(n))
  }

  function NewNode(peer: Option<Peer>, key: seq<bool>, cidr: nat, s: Slot): Node {
    Node(peer, None, None, cidr, key, s)
  }

  predicate SameEntry(nodes: map<Id, Node>, nodes': map<Id, Node>, n: Id) {
    && n in nodes && n in nodes' && nodes'[n].peer == nodes[n].peer
    && nodes'[n].cidr == nodes[n].cidr && nodes'[n].bits == nodes[n].bits
  }

  // ---------------------------------------------------------------- the table

  /** All entries but those of node n0 are the same before and after. */
  ghost predicate OthersSame(nodes: map<Id, Node>, nodes': map<Id, Node>, n0: Id) {
    && (forall n :: n in nodes && n != n0 && nodes[n].peer.Some? ==> SameEntry(nodes, nodes', n))
    && (forall n :: n in nodes' && n != n0 && nodes'[n].peer.Some? ==> SameEntry(nodes, nodes', n))
  }

  lemma AgreesPut(nodes: map<Id, Node>, nodes': map<Id, Node>, table: map<Prefix, Peer>, n0: Id, p: Prefix)
    requires Agrees(nodes, table) && OthersSame(nodes, nodes', n0) && Carries(nodes', n0, p)
    requires forall n :: Carries(nodes, n, p) ==> n == n0
    requires n0 in nodes && nodes[n0].peer.Some? ==> Carries(nodes, n0, p)
    ensures Agrees(nodes', table[p := nodes'[n0].peer.value])
  {
    var table' := table[p := nodes'[n0].peer.value];
    forall n | n in nodes' && nodes'[n].peer.Some?
      ensures nodes'[n].cidr <= |nodes'[n].bits| && PrefixOf(nodes'[n]) in table'
      ensures table'[PrefixOf(nodes'[n])] == nodes'[n].peer.value
    {
      if n != n0 { assert SameEntry(nodes, nodes', n) && !Carries(nodes, n, p); }
    }
    forall q | q in table'
      ensures exists n :: Carries(nodes', n, q)
    {
      if q != p {
        var n :| Carries(nodes, n, q);
        assert SameEntry(nodes, nodes', n);
        assert Carries(nodes', n, q);
      }
    }
  }

  lemma AgreesDrop(nodes: map<Id, Node>, nodes': map<Id, Node>, table: map<Prefix, Peer>, n0: Id, p: Prefix)
    requires Agrees(nodes, table) && OthersSame(nodes, nodes', n0)
    requires n0 in nodes' ==> nodes'[n0].peer.None?
    requires Carries(nodes, n0, p) && forall n :: Carries(nodes, n, p) ==> n == n0
    ensures Agrees(nodes', table - {p})
  {
    forall n | n in nodes' && nodes'[n].peer.Some?
      ensures nodes'[n].cidr <= |nodes'[n].bits| && PrefixOf(nodes'[n]) in table - {p}
      ensures (table - {p})[PrefixOf(nodes'[n])] == nodes'[n].peer.value
    {
      assert SameEntry(nodes, nodes', n) && !Carries(nodes, n, p);
    }
    forall q | q in table - {p}
      ensures exists n :: Carries(nodes', n, q)
    {
      var n :| Carries(nodes, n, q);
      assert SameEntry(nodes, nodes', n);
      assert Carries(nodes', n, q);
    }
  }

  /** Giving a node another peer changes its own entry and nothing else. */
  lemma ReplaceOk(t: Trie, table: map<Prefix, Peer>, n: Id, peer: Peer)
    requires TrieOk(t) && Agrees(t.nodes, table) && n in t.nodes && t.nodes[n].cidr <= |t.nodes[n].bits|
    ensures TrieOk(SetPeer(t, n, Some(peer)))
    ensures Agrees(SetPeer(t, n, Some(peer)).nodes, table[PrefixOf(t.nodes[n]) := peer])
  {
    SetPeerOk(t, n, Some(peer));
    CarriedOnce(t, n, PrefixOf(t.nodes[n]));
    AgreesPut(t.nodes, SetPeer(t, n, Some(peer)).nodes, table, n, PrefixOf(t.nodes[n]));
  }

  /** In a linked trie at most one node carries a prefix. */
  lemma CarriedOnce(t: Trie, n0: Id, p: Prefix)
    requires Linked(t) && n0 in t.nodes && t.nodes[n0].cidr <= |t.nodes[n0].bits| && PrefixOf(t.nodes[n0]) == p
    ensures forall n :: Carries(t.nodes, n, p) ==> n == n0
  {
    forall n | Carries(t.nodes, n, p)
      ensures n == n0
    {
      assert HeldOk(t, n) && HeldOk(t, n0);
      PrefixesDiffer(t, n, n0);
    }
  }

  // ---------------------------------------------------------------- insertion

  /** The pointer the search for a place stopped at. */
  function PlaceSlot(t: Trie, key: seq<bool>, at: Option<Id>): Slot
    requires at.Some? ==> at.value in t.nodes && t.nodes[at.value].cidr < |key|
  {
    if at.None? then RootSlot(|key|) else ChildSlot(at.value, key[t.nodes[at.value].cidr])
  }

  /** Some node, with a peer or without, stands for the prefix. */
  ghost predicate HasNode(t: Trie, p: Prefix) {
    exists n :: n in t.nodes && t.nodes[n].cidr <= |t.nodes[n].bits| && PrefixOf(t.nodes[n]) == p
  }

  /** node_placement() found no node for the prefix and stopped below `at`. */
  ghost predicate Placed(t: Trie, key: seq<bool>, cidr: nat, at: Option<Id>) {
    && (|key| == 32 || |key| == 128) && cidr <= |key|
    && (at.Some? ==> at.value in t.nodes && t.nodes[at.value].cidr < cidr && Matches(t.nodes[at.value], key))
    && !HasNode(t, Prefix(|key|, key[..cidr]))
    && var d := SlotRef(t, PlaceSlot(t, key, at));
       d.Some? ==> d.value in t.nodes && !(t.nodes[d.value].cidr <= cidr && Matches(t.nodes[d.value], key))
  }

  /** The search that faces a pointer leading away has found where the prefix belongs. */
  lemma BlockedIsPlaced(t: Trie, key: seq<bool>, cidr: nat, at: Option<Id>, r: Option<Id>)
    requires Linked(t) && (|key| == 32 || |key| == 128) && cidr <= |key|
    requires Stands(t, Root(t, |key|), key, cidr, at, r) && Blocked(t, r, key, cidr)
    ensures Placed(t, key, cidr, at)
  {
    forall n | n in t.nodes && t.nodes[n].cidr <= |t.nodes[n].bits|
      ensures PrefixOf(t.nodes[n]) != Prefix(|key|, key[..cidr])
    {
      BlockedMeansAbsent(t, key, cidr, at, r, n);
    }
  }

  /** A node made from the key fits the slot the search stopped at. */
  lemma PlaceFits(t: Trie, key: seq<bool>, cidr: nat, at: Option<Id>, n: Node)
    requires Placed(t, key, cidr, at) && n.bits == key && n.cidr <= |key|
    requires at.Some? ==> t.nodes[at.value].cidr < n.cidr
    ensures Fits(t, PlaceSlot(t, key, at), n)
  {
  }

  /**
   One node for the prefix was added with its peer; every old node keeps its entry, and
   whatever else is new carries nothing.
   */
  ghost predicate Entered(nodes: map<Id, Node>, nodes': map<Id, Node>, id: Id, node: Node) {
    && id !in nodes && id in nodes'
    && nodes'[id].peer == node.peer && nodes'[id].cidr == node.cidr && nodes'[id].bits == node.bits
    && (forall n :: n in nodes ==> SameEntry(nodes, nodes', n))
    && (forall n :: n in nodes' && n !in nodes && n != id ==> nodes'[n].peer.None?)
  }

  /** No old node loses a child. */
  ghost predicate KidsKept(nodes: map<Id, Node>, nodes': map<Id, Node>) {
    forall n :: n in nodes ==> n in nodes' && (TwoKids(nodes[n]) ==> TwoKids(nodes'[n]))
  }

  lemma LeafEntries(t: Trie, id: Id, node: Node)
    requires SlotIn(t, node.parent) && id !in t.nodes
    ensures Entered(t.nodes, LeafAt(t, id, node).nodes, id, node) && KidsKept(t.nodes, LeafAt(t, id, node).nodes)
    ensures LeafAt(t, id, node).nodes[id] == node
  {
  }

  lemma AboveEntries(t: Trie, id: Id, node: Node, down: Id, bit: bool)
    requires SlotIn(t, node.parent) && id !in t.nodes && down in t.nodes
    ensures Entered(t.nodes, AboveAt(t, id, node, down, bit).nodes, id, node)
    ensures KidsKept(t.nodes, AboveAt(t, id, node, down, bit).nodes)
    ensures AboveAt(t, id, node, down, bit).nodes[id] == node
  {
  }

  /** Entering a new prefix puts that prefix in the table. */
  lemma EnteredPut(nodes: map<Id, Node>, nodes': map<Id, Node>, table: map<Prefix, Peer>, id: Id, node: Node)
    requires Agrees(nodes, table) && Entered(nodes, nodes', id, node)
    requires node.peer.Some? && node.cidr <= |node.bits|
    requires forall n :: n in nodes && nodes[n].cidr <= |nodes[n].bits| ==> PrefixOf(nodes[n]) != PrefixOf(node)
    ensures Agrees(nodes', table[PrefixOf(node) := node.peer.value])
  {
    assert OthersSame(nodes, nodes', id);
    AgreesPut(nodes, nodes', table, id, PrefixOf(node));
  }

  /** The new prefix goes into an empty slot. */
  lemma AddLeaf(t: Trie, key: seq<bool>, cidr: nat, at: Option<Id>, id: Id, peer: Peer)
    requires TrieOk(t) && Placed(t, key, cidr, at) && id !in t.nodes
    requires SlotRef(t, PlaceSlot(t, key, at)).None?
    ensures TrieOk(LeafAt(t, id, NewNode(Some(peer), key, cidr, PlaceSlot(t, key, at))))
  {
    var node := NewNode(Some(peer), key, cidr, PlaceSlot(t, key, at));
    PlaceFits(t, key, cidr, at, node);
    LeafAtOk(t, id, node);
    LeafEntries(t, id, node);
  }

  ghost function Shared(t: Trie, key: seq<bool>, down: Id): nat
    requires down in t.nodes && |t.nodes[down].bits| == |key|
  {
    Address.Common(t.nodes[down].bits, key)
  }

  /** The search stopped at a slot that already holds a node. */
  ghost predicate Occupied(t: Trie, key: seq<bool>, cidr: nat, at: Option<Id>, down: Id) {
    && Placed(t, key, cidr, at) && SlotRef(t, PlaceSlot(t, key, at)) == Some(down)
    && SlotOk(t, PlaceSlot(t, key, at)) && down in t.nodes && Sized(t.nodes[down])
  }

  lemma OccupiedIn(t: Trie, key: seq<bool>, cidr: nat, at: Option<Id>, down: Id)
    requires Linked(t) && Placed(t, key, cidr, at) && SlotRef(t, PlaceSlot(t, key, at)) == Some(down)
    ensures Occupied(t, key, cidr, at, down)
  {
    assert SlotOk(t, PlaceSlot(t, key, at));
    assert HeldOk(t, down);
  }

  /** Where the key and the node below part company, counted in bits and capped by cidr. */
  ghost function Parting(t: Trie, key: seq<bool>, cidr: nat, down: Id): nat
    requires down in t.nodes && |t.nodes[down].bits| == |key|
  {
    if cidr < Shared(t, key, down) then cidr else Shared(t, key, down)
  }

  /** The parting bit lies strictly between the node above and the node below. */
  lemma PartingBetween(t: Trie, key: seq<bool>, cidr: nat, at: Option<Id>, down: Id)
    requires Occupied(t, key, cidr, at, down)
    ensures |t.nodes[down].bits| == |key|
    ensures Parting(t, key, cidr, down) < t.nodes[down].cidr
    ensures at.Some? ==> t.nodes[at.value].cidr < Parting(t, key, cidr, down)
    ensures t.nodes[down].bits[..Parting(t, key, cidr, down)] == key[..Parting(t, key, cidr, down)]
  {
    var d := t.nodes[down];
    Address.CommonAtLeast(d.bits, key, Parting(t, key, cidr, down));
    Address.CommonAtLeast(d.bits, key, d.cidr);
    if at.Some? { SharesNext(d.bits, key, t.nodes[at.value].cidr); }
  }

  /** Two keys that agree up to bit c and in bit c share more than c bits. */
  lemma SharesNext(a: seq<bool>, b: seq<bool>, c: nat)
    requires |a| == |b| && c < |a| && a[..c] == b[..c] && a[c] == b[c]
    ensures c < Address.Common(a, b)
  {
    assert a[..c + 1] == a[..c] + [a[c]] && b[..c + 1] == b[..c] + [b[c]];
    Address.CommonAtLeast(a, b, c + 1);
  }

  /** The node to put above down: the new prefix itself, or a fork without a peer. */
  ghost function UpperNode(t: Trie, peer: Option<Peer>, key: seq<bool>, cidr: nat, at: Option<Id>, down: Id): Node
    requires at.Some? ==> at.value in t.nodes && t.nodes[at.value].cidr < |key|
    requires down in t.nodes && cidr < |t.nodes[down].bits|
  {
    WithKid(NewNode(peer, key, cidr, PlaceSlot(t, key, at)), t.nodes[down].bits[cidr], Some(down))
  }

  lemma UpperTakesOver(t: Trie, peer: Option<Peer>, key: seq<bool>, cidr: nat, at: Option<Id>, down: Id, id: Id)
    requires Linked(t) && Occupied(t, key, cidr, at, down) && id !in t.nodes && |t.nodes[down].bits| == |key|
    requires Parting(t, key, cidr, down) < |key|
    ensures var c := Parting(t, key, cidr, down);
            var b := t.nodes[down].bits[c];
            TakesOver(t, id, UpperNode(t, peer, key, c, at, down), down, b)
            && Linked(AboveAt(t, id, UpperNode(t, peer, key, c, at, down), down, b))
  {
    var c := Parting(t, key, cidr, down);
    PartingBetween(t, key, cidr, at, down);
    var upper := UpperNode(t, peer, key, c, at, down);
    PlaceFits(t, key, cidr, at, upper);
    AboveAtOk(t, id, upper, down, t.nodes[down].bits[c]);
  }

  /** The new prefix covers the node that was in its slot. */
  lemma AddAbove(t: Trie, key: seq<bool>, cidr: nat, at: Option<Id>, down: Id, id: Id, peer: Peer)
    requires TrieOk(t) && Occupied(t, key, cidr, at, down) && id !in t.nodes && |t.nodes[down].bits| == |key|
    requires cidr < |key| && Parting(t, key, cidr, down) == cidr
    ensures TrieOk(AboveAt(t, id, UpperNode(t, Some(peer), key, cidr, at, down), down, t.nodes[down].bits[cidr]))
  {
    UpperTakesOver(t, Some(peer), key, cidr, at, down, id);
    AboveEntries(t, id, UpperNode(t, Some(peer), key, cidr, at, down), down, t.nodes[down].bits[cidr]);
  }

  /** The trie with a fork above down and the new prefix on its other side. */
  ghost function Split(t: Trie, key: seq<bool>, cidr: nat, at: Option<Id>, down: Id, glue: Id, id: Id, peer: Peer): Trie
    requires Occupied(t, key, cidr, at, down) && |t.nodes[down].bits| == |key| && Parting(t, key, cidr, down) < |key|
    requires glue !in t.nodes && id !in t.nodes && glue != id
  {
    var c := Parting(t, key, cidr, down);
    var fork := AboveAt(t, glue, UpperNode(t, None, key, c, at, down), down, t.nodes[down].bits[c]);
    LeafAt(fork, id, NewNode(Some(peer), key, cidr, ChildSlot(glue, key[c])))
  }

  /** Hanging a leaf on the free side of a fork completes the fork. */
  lemma CompleteFork(fork: Trie, glue: Id, bit: bool, id: Id, node: Node)
    requires Linked(fork) && glue in fork.nodes && id !in fork.nodes
    requires forall n :: n in fork.nodes && n != glue && fork.nodes[n].peer.None? ==> TwoKids(fork.nodes[n])
    requires Kid(fork.nodes[glue], bit).None? && Kid(fork.nodes[glue], !bit).Some?
    requires Sized(node) && node.parent == ChildSlot(glue, bit) && Below(fork.nodes[glue], bit, node)
    requires node.bit0.None? && node.bit1.None? && node.peer.Some?
    ensures TrieOk(LeafAt(fork, id, node))
  {
    LeafAtOk(fork, id, node);
    LeafEntries(fork, id, node);
    var t' := LeafAt(fork, id, node);
    assert TwoKids(t'.nodes[glue]);
  }

  /** The new prefix and the node in its slot part company below the slot. */
  lemma AddSplit(t: Trie, key: seq<bool>, cidr: nat, at: Option<Id>, down: Id, glue: Id, id: Id, peer: Peer)
    requires TrieOk(t) && Occupied(t, key, cidr, at, down) && |t.nodes[down].bits| == |key|
    requires glue !in t.nodes && id !in t.nodes && glue != id && Parting(t, key, cidr, down) < cidr
    ensures TrieOk(Split(t, key, cidr, at, down, glue, id, peer))
  {
    var c := Parting(t, key, cidr, down);
    var upper, b := UpperNode(t, None, key, c, at, down), t.nodes[down].bits[c];
    var fork := AboveAt(t, glue, upper, down, b);
    UpperTakesOver(t, None, key, cidr, at, down, glue);
    AboveEntries(t, glue, upper, down, b);
    CompleteFork(fork, glue, key[c], id, NewNode(Some(peer), key, cidr, ChildSlot(glue, key[c])));
  }

  /** The split enters the new prefix beside a fork that carries nothing. */
  lemma SplitEntries(t: Trie, key: seq<bool>, cidr: nat, at: Option<Id>, down: Id, glue: Id, id: Id, peer: Peer)
    requires Occupied(t, key, cidr, at, down) && |t.nodes[down].bits| == |key| && Parting(t, key, cidr, down) < |key|
    requires glue !in t.nodes && id !in t.nodes && glue != id
    ensures Entered(t.nodes, Split(t, key, cidr, at, down, glue, id, peer).nodes, id,
                    NewNode(Some(peer), key, cidr, RootSlot(0)))
  {
    var c := Parting(t, key, cidr, down);
    var upper, b := UpperNode(t, None, key, c, at, down), t.nodes[down].bits[c];
    var fork := AboveAt(t, glue, upper, down, b);
    var node := NewNode(Some(peer), key, cidr, ChildSlot(glue, key[c]));
    AboveEntries(t, glue, upper, down, b);
    LeafEntries(fork, id, node);
    EnteredBoth(t.nodes, fork.nodes, LeafAt(fork, id, node).nodes, glue, id, upper, node);
  }

  lemma EnteredBoth(nodes: map<Id, Node>, nodes': map<Id, Node>, nodes'': map<Id, Node>,
                    glue: Id, id: Id, upper: Node, node: Node)
    requires Entered(nodes, nodes', glue, upper) && upper.peer.None? && id !in nodes
    requires Entered(nodes', nodes'', id, node)
    ensures Entered(nodes, nodes'', id, node)
  {
    forall n | n in nodes
      ensures SameEntry(nodes, nodes'', n)
    {
      assert SameEntry(nodes, nodes', n) && SameEntry(nodes', nodes'', n);
    }
    forall n | n in nodes'' && n !in nodes && n != id
      ensures nodes''[n].peer.None?
    {
      if n in nodes' { assert SameEntry(nodes', nodes'', n); }
    }
  }

  /** All that the caller needs of an insertion above a node. */
  lemma AboveReady(t: Trie, key: seq<bool>, cidr: nat, at: Option<Id>, down: Id, id: Id, peer: Peer)
    requires TrieOk(t) && Occupied(t, key, cidr, at, down) && id !in t.nodes && |t.nodes[down].bits| == |key|
    requires cidr < |key| && Parting(t, key, cidr, down) == cidr
    ensures at.Some? ==> at.value != down
    ensures var bit, s := t.nodes[down].bits[cidr], PlaceSlot(t, key, at);
            var node := NewNode(Some(peer), key, cidr, RootSlot(0));
            var t' := AboveAt(t, id, WithKid(node, bit, Some(down)).(parent := s), down, bit);
            TrieOk(t') && Entered(t.nodes, t'.nodes, id, node)
  {
    var upper, bit := UpperNode(t, Some(peer), key, cidr, at, down), t.nodes[down].bits[cidr];
    UpperTakesOver(t, Some(peer), key, cidr, at, down, id);
    AddAbove(t, key, cidr, at, down, id, peer);
    AboveEntries(t, id, upper, down, bit);
    var lone := NewNode(Some(peer), key, cidr, RootSlot(0));
    assert upper == WithKid(lone, bit, Some(down)).(parent := PlaceSlot(t, key, at));
  }

  /** All that the caller needs of a split. */
  lemma SplitReady(t: Trie, key: seq<bool>, cidr: nat, common: nat, at: Option<Id>, down: Id, glue: Id, id: Id,
                   peer: Peer)
    requires TrieOk(t) && Occupied(t, key, cidr, at, down) && |t.nodes[down].bits| == |key|
    requires glue !in t.nodes && id !in t.nodes && glue != id && common == Parting(t, key, cidr, down) < cidr
    ensures at.Some? ==> at.value != down
    ensures key[common] != t.nodes[down].bits[common]
    ensures var bit, s := t.nodes[down].bits[common], PlaceSlot(t, key, at);
            var node := NewNode(Some(peer), key, cidr, RootSlot(0));
            var t' := LeafAt(AboveAt(t, glue, WithKid(NewNode(None, key, common, s), bit, Some(down)), down, bit),
                             id, node.(parent := ChildSlot(glue, !bit)));
            TrieOk(t') && Entered(t.nodes, t'.nodes, id, node)
  {
    UpperTakesOver(t, None, key, cidr, at, down, glue);
    AddSplit(t, key, cidr, at, down, glue, id, peer);
    SplitEntries(t, key, cidr, at, down, glue, id, peer);
    assert key[common] == !t.nodes[down].bits[common];
  }

  // ---------------------------------------------------------------- the writes of add()

  /** Making a node and connecting it is LeafAt. */
  lemma ConnectLeaf(t: Trie, id: Id, node: Node, s: Slot)
    requires SlotIn(t, s) && id !in t.nodes
    ensures Connect(t.(nodes := t.nodes[id := node]), s, id) == LeafAt(t, id, node.(parent := s))
  {
    assert t.nodes[id := node][id := node.(parent := s)] == t.nodes[id := node.(parent := s)];
  }

  /** Connecting down below the new node, then the new node to the slot, is AboveAt. */
  lemma ConnectAbove(t: Trie, id: Id, node: Node, s: Slot, down: Id, bit: bool)
    requires SlotIn(t, s) && id !in t.nodes && down in t.nodes
    requires s != ChildSlot(down, false) && s != ChildSlot(down, true)
    ensures var u := Connect(t.(nodes := t.nodes[id := node]), ChildSlot(id, bit), down);
            Connect(u, s, id) == AboveAt(t, id, WithKid(node, bit, Some(down)).(parent := s), down, bit)
  {
    var u := Connect(t.(nodes := t.nodes[id := node]), ChildSlot(id, bit), down);
    assert Connect(u, s, id).nodes == AboveAt(t, id, WithKid(node, bit, Some(down)).(parent := s), down, bit).nodes;
  }

  /** Connecting down and the new node below a fork, then the fork to the slot, is the split. */
  lemma ConnectSplit(t: Trie, glue: Id, fork: Node, id: Id, node: Node, s: Slot, down: Id, bit: bool)
    requires SlotIn(t, s) && id !in t.nodes && glue !in t.nodes && id != glue && down in t.nodes
    requires s != ChildSlot(down, false) && s != ChildSlot(down, true)
    ensures var u := Connect(t.(nodes := t.nodes[id := node][glue := fork]), ChildSlot(glue, bit), down);
            var v := Connect(u, ChildSlot(glue, !bit), id);
            Connect(v, s, glue) ==
            LeafAt(AboveAt(t, glue, WithKid(fork, bit, Some(down)).(parent := s), down, bit),
                   id, node.(parent := ChildSlot(glue, !bit)))
  {
    var u := Connect(t.(nodes := t.nodes[id := node][glue := fork]), ChildSlot(glue, bit), down);
    var v := Connect(u, ChildSlot(glue, !bit), id);
    assert Connect(v, s, glue).nodes ==
           LeafAt(AboveAt(t, glue, WithKid(fork, bit, Some(down)).(parent := s), down, bit),
                  id, node.(parent := ChildSlot(glue, !bit))).nodes;
  }

  // ---------------------------------------------------------------- removal

  lemma SpliceEntries(t: Trie, n: Id)
    requires Spliceable(t, n)
    ensures Splice(t, n).nodes.Keys == t.nodes.Keys - {n}
    ensures forall m :: m in t.nodes && m != n ==> SameEntry(t.nodes, Splice(t, n).nodes, m)
  {
  }

  /** Only the node above a freed leaf loses a child, and only the one on the leaf's side. */
  lemma SpliceKids(t: Trie, n: Id, m: Id)
    requires Spliceable(t, n) && m in Splice(t, n).nodes && m in t.nodes
    ensures TwoKids(t.nodes[m]) ==>
              || TwoKids(Splice(t, n).nodes[m])
              || (OnlyKid(t.nodes[n]).None? && t.nodes[n].parent.ChildSlot? && t.nodes[n].parent.node == m)
    ensures t.nodes[n].parent.ChildSlot? && t.nodes[n].parent.node == m ==>
              Kid(Splice(t, n).nodes[m], !t.nodes[n].parent.bit) == Kid(t.nodes[m], !t.nodes[n].parent.bit)
              && Kid(Splice(t, n).nodes[m], t.nodes[n].parent.bit) == OnlyKid(t.nodes[n])
  {
  }

  /** The node above n is a fork that loses its last reason to exist with n. */
  predicate FreesParent(t: Trie, n: Id)
    requires n in t.nodes
  {
    && t.nodes[n].bit0.None? && t.nodes[n].bit1.None? && t.nodes[n].parent.ChildSlot?
    && t.nodes[n].parent.node in t.nodes && t.nodes[t.nodes[n].parent.node].peer.None?
  }

  /** remove_node() as far as the trie goes. */
  ghost function Removed(t: Trie, n: Id): Trie
    requires TrieOk(t) && n in t.nodes
  {
    var t1 := SetPeer(t, n, None);
    if TwoKids(t.nodes[n]) then t1
    else
      SetPeerOk(t, n, None); SpliceOk(t1, n);
      var t2 := Splice(t1, n);
      if !FreesParent(t, n) then t2
      else
        var p := t.nodes[n].parent.node;
        ParentSpliceable(t, n);
        Splice(t2, p)
  }

  lemma ParentSpliceable(t: Trie, n: Id)
    requires TrieOk(t) && n in t.nodes && FreesParent(t, n)
    ensures Spliceable(SetPeer(t, n, None), n)
    ensures var t2 := Splice(SetPeer(t, n, None), n);
            var p := t.nodes[n].parent.node;
            && p != n && p in t2.nodes && Linked(t2) && Spliceable(t2, p)
            && OnlyKid(t2.nodes[p]).Some?
  {
    var t1 := SetPeer(t, n, None);
    SetPeerOk(t, n, None);
    SpliceOk(t1, n);
    var t2, p := Splice(t1, n), t.nodes[n].parent.node;
    assert SlotOk(t, t.nodes[n].parent) && HeldOk(t, n);
    assert p != n;
    SpliceEntries(t1, n);
    SpliceKids(t1, n, p);
    assert TwoKids(t.nodes[p]);
    SpliceOk(t2, p);
  }

  lemma RemovedTwoKids(t: Trie, n: Id)
    requires TrieOk(t) && n in t.nodes && TwoKids(t.nodes[n])
    ensures TrieOk(Removed(t, n)) && RemovedEntries(t.nodes, Removed(t, n).nodes, n)
  {
    SetPeerOk(t, n, None);
  }

  /** n has no entry any more, forks may have gone, and every other entry is untouched. */
  ghost predicate RemovedEntries(nodes: map<Id, Node>, nodes': map<Id, Node>, n: Id) {
    && nodes'.Keys <= nodes.Keys
    && (n in nodes' ==> nodes'[n].peer.None?)
    && (forall m :: m in nodes' && m != n ==> SameEntry(nodes, nodes', m))
    && (forall m :: m in nodes && m !in nodes' && m != n ==> nodes[m].peer.None?)
  }

  lemma RemovedSplice(t: Trie, n: Id)
    requires TrieOk(t) && n in t.nodes && !TwoKids(t.nodes[n]) && !FreesParent(t, n)
    ensures TrieOk(Removed(t, n)) && RemovedEntries(t.nodes, Removed(t, n).nodes, n)
  {
    var t1 := SetPeer(t, n, None);
    SetPeerOk(t, n, None);
    SpliceOk(t1, n);
    SpliceEntries(t1, n);
    var t2 := Splice(t1, n);
    forall m | m in t2.nodes && t2.nodes[m].peer.None?
      ensures TwoKids(t2.nodes[m])
    {
      assert SameEntry(t1.nodes, t2.nodes, m) && TwoKids(t.nodes[m]);
      SpliceKids(t1, n, m);
    }
    forall m | m in t2.nodes
      ensures SameEntry(t.nodes, t2.nodes, m)
    {
      assert SameEntry(t1.nodes, t2.nodes, m);
    }
  }

  lemma RemovedFork(t: Trie, n: Id)
    requires TrieOk(t) && n in t.nodes && !TwoKids(t.nodes[n]) && FreesParent(t, n)
    ensures TrieOk(Removed(t, n)) && RemovedEntries(t.nodes, Removed(t, n).nodes, n)
  {
    var t1 := SetPeer(t, n, None);
    ParentSpliceable(t, n);
    var t2, p := Splice(t1, n), t.nodes[n].parent.node;
    SpliceEntries(t1, n);
    SpliceOk(t2, p);
    SpliceEntries(t2, p);
    var t3 := Splice(t2, p);
    forall m | m in t3.nodes && t3.nodes[m].peer.None?
      ensures TwoKids(t3.nodes[m])
    {
      assert SameEntry(t2.nodes, t3.nodes, m) && SameEntry(t1.nodes, t2.nodes, m) && TwoKids(t.nodes[m]);
      SpliceKids(t1, n, m);
      SpliceKids(t2, p, m);
    }
    forall m | m in t3.nodes
      ensures SameEntry(t.nodes, t3.nodes, m)
    {
      assert SameEntry(t2.nodes, t3.nodes, m) && SameEntry(t1.nodes, t2.nodes, m);
    }
  }

  /** Removing a node keeps the shape, and takes exactly its prefix out of the table. */
  lemma RemovedOk(t: Trie, table: map<Prefix, Peer>, n: Id)
    requires TrieOk(t) && Agrees(t.nodes, table) && n in t.nodes && t.nodes[n].peer.Some?
    ensures TrieOk(Removed(t, n)) && RemovedEntries(t.nodes, Removed(t, n).nodes, n)
    ensures t.nodes[n].cidr <= |t.nodes[n].bits| && Agrees(Removed(t, n).nodes, table - {PrefixOf(t.nodes[n])})
  {
    if TwoKids(t.nodes[n]) {
      RemovedTwoKids(t, n);
    } else if FreesParent(t, n) {
      RemovedFork(t, n);
    } else {
      RemovedSplice(t, n);
    }
    CarriedOnce(t, n, PrefixOf(t.nodes[n]));
    RemovedDrop(t.nodes, Removed(t, n).nodes, table, n);
  }

  lemma RemovedDrop(nodes: map<Id, Node>, nodes': map<Id, Node>, table: map<Prefix, Peer>, n: Id)
    requires Agrees(nodes, table) && RemovedEntries(nodes, nodes', n)
    requires n in nodes && nodes[n].peer.Some? && nodes[n].cidr <= |nodes[n].bits|
    requires forall m :: Carries(nodes, m, PrefixOf(nodes[n])) ==> m == n
    ensures Agrees(nodes', table - {PrefixOf(nodes[n])})
  {
    assert OthersSame(nodes, nodes', n);
    AgreesDrop(nodes, nodes', table, n, PrefixOf(nodes[n]));
  }
}
