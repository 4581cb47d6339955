/**
 The AllowedIPs trie as linked nodes: a path-compressed binary trie whose nodes carry
 a child pointer per bit and a packed pointer back to the slot that holds them.  Nodes live
 in an arena indexed by their address; an IPv4 and an IPv6 root share it, as the peers' lists
 do in the source.
 */
module TrieShape {
  import opened Maybe

  type Id = nat
  type Peer = nat

  /** MAX_ALLOWEDIPS_DEPTH */
  const MAX_DEPTH := 129

  /** What parent_bit_packed names: a root pointer, or one child pointer of a node. */
  datatype Slot = RootSlot(width: nat) | ChildSlot(node: Id, bit: bool)

  /** struct allowedips_node; bits holds the whole key it was created from, first bit first. */
  datatype Node = Node(peer: Option<Peer>, bit0: Option<Id>, bit1: Option<Id>, cidr: nat,
                       bits: seq<bool>, parent: Slot)

  datatype Trie = Trie(nodes: map<Id, Node>, roots: map<nat, Id>)

  /** An address prefix of one family. */
  datatype Prefix = Prefix(width: nat, bits: seq<bool>)

  function PrefixOf(n: Node): (r: Prefix)
    requires n.cidr <= |n.bits|
  {
    Prefix(|n.bits|, n.bits[..n.cidr])
  }

  function Kid(n: Node, bit: bool): Option<Id> { if bit then n.bit1 else n.bit0 }

  function WithKid(n: Node, bit: bool, r: Option<Id>): Node {
    if bit then n.(bit1 := r) else n.(bit0 := r)
  }

  predicate SlotIn(t: Trie, s: Slot) { s.ChildSlot? ==> s.node in t.nodes }

  function SlotRef(t: Trie, s: Slot): Option<Id>
    requires SlotIn(t, s)
  {
    match s
    case RootSlot(w) => if w in t.roots then Some(t.roots[w]) else None
    case ChildSlot(p, b) => Kid(t.nodes[p], b)
  }

  /** Writes a pointer. */
  function SlotSet(t: Trie, s: Slot, r: Option<Id>): Trie
    requires SlotIn(t, s)
  {
    match s
    case RootSlot(w) => t.(roots := if r.Some? then t.roots[w := r.value] else t.roots - {w})
    case ChildSlot(p, b) => t.(nodes := t.nodes[p := WithKid(t.nodes[p], b, r)])
  }

  predicate SameButKids(a: Node, b: Node) {
    a.peer == b.peer && a.cidr == b.cidr && a.bits == b.bits && a.parent == b.parent
  }

  // ---------------------------------------------------------------- the invariant

  predicate Sized(n: Node) { n.cidr <= |n.bits| && (|n.bits| == 32 || |n.bits| == 128) }

  /** c may hang below p on the given bit. */
  predicate Below(p: Node, bit: bool, c: Node) {
    && p.cidr < c.cidr <= |c.bits| == |p.bits|
    && c.bits[..p.cidr] == p.bits[..p.cidr]
    && c.bits[p.cidr] == bit
  }

  predicate Fits(t: Trie, s: Slot, n: Node)
    requires SlotIn(t, s)
  {
    match s
    case RootSlot(w) => |n.bits| == w
    case ChildSlot(p, b) => Below(t.nodes[p], b, n)
  }

  /** The pointer in slot s leads to a node that points back at s. */
  predicate SlotOk(t: Trie, s: Slot)
    requires SlotIn(t, s)
  {
    SlotRef(t, s).Some? ==>
      var n := SlotRef(t, s).value;
      n in t.nodes && t.nodes[n].parent == s && Fits(t, s, t.nodes[n])
  }

  /** Node n is held by the slot it names. */
  predicate HeldOk(t: Trie, n: Id)
    requires n in t.nodes
  {
    Sized(t.nodes[n]) && SlotIn(t, t.nodes[n].parent) && SlotRef(t, t.nodes[n].parent) == Some(n)
  }

  ghost predicate Linked(t: Trie) {
    && (forall s {:trigger SlotOk(t, s)} :: SlotIn(t, s) ==> SlotOk(t, s))
    && (forall n {:trigger HeldOk(t, n)} :: n in t.nodes ==> HeldOk(t, n))
  }

  predicate TwoKids(n: Node) { n.bit0.Some? && n.bit1.Some? }

  /** Path compression: a node without a peer is a fork. */
  predicate Forked(t: Trie) {
    forall n :: n in t.nodes && t.nodes[n].peer.None? ==> TwoKids(t.nodes[n])
  }

  ghost predicate TrieOk(t: Trie) { Linked(t) && Forked(t) }

  // ---------------------------------------------------------------- rewiring

  /** A slot that keeps its pointer stays in order when the nodes at its ends keep their prefixes. */
  lemma SlotFrame(t: Trie, t': Trie, s: Slot)
    requires SlotIn(t, s) && SlotIn(t', s) && SlotOk(t, s) && SlotRef(t', s) == SlotRef(t, s)
    requires SlotRef(t, s).Some? ==>
      var n := SlotRef(t, s).value; n in t'.nodes && SameButKids(t'.nodes[n], t.nodes[n])
    requires s.ChildSlot? ==> SameButKids(t'.nodes[s.node], t.nodes[s.node])
    ensures SlotOk(t', s)
  {
  }

  function LeafAt(t: Trie, id: Id, node: Node): Trie
    requires SlotIn(t, node.parent) && id !in t.nodes
  {
    SlotSet(t.(nodes := t.nodes[id := node]), node.parent, Some(id))
  }

  lemma LeafAtSlot(t: Trie, id: Id, node: Node, s: Slot)
    requires SlotIn(t, node.parent) && id !in t.nodes && Fits(t, node.parent, node)
    requires node.bit0.None? && node.bit1.None?
    requires SlotIn(t, s) ==> SlotOk(t, s)
    requires SlotIn(LeafAt(t, id, node), s)
    ensures SlotOk(LeafAt(t, id, node), s)
  {
    var t' := LeafAt(t, id, node);
    if s != node.parent && SlotIn(t, s) {
      SlotFrame(t, t', s);
    }
  }

  /** connect_node() of a new node without children into an empty slot. */
  lemma LeafAtOk(t: Trie, id: Id, node: Node)
    requires Linked(t) && SlotIn(t, node.parent) && id !in t.nodes
    requires SlotRef(t, node.parent).None? && Sized(node) && Fits(t, node.parent, node)
    requires node.bit0.None? && node.bit1.None?
    ensures Linked(LeafAt(t, id, node))
  {
    var t' := LeafAt(t, id, node);
    forall s | SlotIn(t', s)
      ensures SlotOk(t', s)
    {
      if SlotIn(t, s) { assert SlotOk(t, s); }
      LeafAtSlot(t, id, node, s);
    }
    forall n | n in t'.nodes
      ensures HeldOk(t', n)
    {
      if n != id { assert HeldOk(t, n); }
    }
  }

  function AboveAt(t: Trie, id: Id, node: Node, down: Id, bit: bool): Trie
    requires SlotIn(t, node.parent) && id !in t.nodes && down in t.nodes
  {
    var moved := t.nodes[id := node][down := t.nodes[down].(parent := ChildSlot(id, bit))];
    SlotSet(t.(nodes := moved), node.parent, Some(id))
  }

  /** The new node takes the slot of down and holds down itself. */
  predicate TakesOver(t: Trie, id: Id, node: Node, down: Id, bit: bool)
    requires SlotIn(t, node.parent)
  {
    && id !in t.nodes && down in t.nodes
    && SlotRef(t, node.parent) == Some(down) && t.nodes[down].parent == node.parent
    && Sized(node) && Fits(t, node.parent, node) && Below(node, bit, t.nodes[down])
    && Kid(node, bit) == Some(down) && Kid(node, !bit).None?
    && node.parent != ChildSlot(down, false) && node.parent != ChildSlot(down, true)
  }

  lemma AboveAtSlot(t: Trie, id: Id, node: Node, down: Id, bit: bool, s: Slot)
    requires SlotIn(t, node.parent) && TakesOver(t, id, node, down, bit)
    requires SlotIn(t, s) ==> SlotOk(t, s)
    requires SlotIn(AboveAt(t, id, node, down, bit), s)
    ensures SlotOk(AboveAt(t, id, node, down, bit), s)
  {
    var t' := AboveAt(t, id, node, down, bit);
    if s != node.parent && SlotIn(t, s) {
      assert SlotRef(t, s) != Some(down);
      if s.ChildSlot? && s.node == down {
        assert t'.nodes[down].cidr == t.nodes[down].cidr && t'.nodes[down].bits == t.nodes[down].bits;
      } else {
        SlotFrame(t, t', s);
      }
    }
  }

  /** Splicing a new node between a slot and the node it held. */
  lemma AboveAtOk(t: Trie, id: Id, node: Node, down: Id, bit: bool)
    requires Linked(t) && SlotIn(t, node.parent) && TakesOver(t, id, node, down, bit)
    ensures Linked(AboveAt(t, id, node, down, bit))
  {
    var t' := AboveAt(t, id, node, down, bit);
    forall s | SlotIn(t', s)
      ensures SlotOk(t', s)
    {
      if SlotIn(t, s) { assert SlotOk(t, s); }
      AboveAtSlot(t, id, node, down, bit, s);
    }
    forall n | n in t'.nodes
      ensures HeldOk(t', n)
    {
      if n != id { assert HeldOk(t, n); }
    }
  }

  /** remove_node()'s pick of the one child that is left, if any. */
  function OnlyKid(n: Node): Option<Id> { if n.bit0.Some? then n.bit0 else n.bit1 }

  /** Hands n's slot to n's only child and frees n. */
  function Splice(t: Trie, n: Id): Trie
    requires n in t.nodes && SlotIn(t, t.nodes[n].parent)
    requires OnlyKid(t.nodes[n]).Some? ==> OnlyKid(t.nodes[n]).value in t.nodes
  {
    var s, child := t.nodes[n].parent, OnlyKid(t.nodes[n]);
    var moved := if child.Some? then t.nodes[child.value := t.nodes[child.value].(parent := s)] else t.nodes;
    var t' := SlotSet(t.(nodes := moved), s, child);
    t'.(nodes := t'.nodes - {n})
  }

  predicate Spliceable(t: Trie, n: Id) {
    && n in t.nodes && HeldOk(t, n) && SlotOk(t, t.nodes[n].parent) && !TwoKids(t.nodes[n])
    && SlotOk(t, ChildSlot(n, false)) && SlotOk(t, ChildSlot(n, true))
  }

  lemma BelowTransitive(p: Node, b: bool, n: Node, c: bool, m: Node)
    requires Below(p, b, n) && Below(n, c, m)
    ensures Below(p, b, m)
  {
    assert m.bits[..p.cidr] == m.bits[..n.cidr][..p.cidr];
    assert n.bits[..p.cidr] == n.bits[..n.cidr][..p.cidr];
    assert m.bits[p.cidr] == m.bits[..n.cidr][p.cidr] == n.bits[..n.cidr][p.cidr];
  }

  /** The slot that held n now holds n's child in good order. */
  lemma SpliceHeir(t: Trie, n: Id)
    requires Spliceable(t, n)
    ensures SlotIn(Splice(t, n), t.nodes[n].parent) && SlotOk(Splice(t, n), t.nodes[n].parent)
    ensures SlotRef(Splice(t, n), t.nodes[n].parent) == OnlyKid(t.nodes[n])
  {
    var s, child := t.nodes[n].parent, OnlyKid(t.nodes[n]);
    if child.Some? {
      var b := t.nodes[n].bit0.None?;
      assert SlotRef(t, ChildSlot(n, b)) == child;
      if s.ChildSlot? {
        BelowTransitive(t.nodes[s.node], s.bit, t.nodes[n], b, t.nodes[child.value]);
      }
    }
  }

  lemma SpliceSlot(t: Trie, n: Id, s: Slot)
    requires Spliceable(t, n) && SlotIn(Splice(t, n), s)
    requires SlotIn(t, s) ==> SlotOk(t, s)
    ensures SlotOk(Splice(t, n), s)
  {
    var t' := Splice(t, n);
    SpliceHeir(t, n);
    if s != t.nodes[n].parent {
      assert SlotRef(t, s) != Some(n);
      var child := OnlyKid(t.nodes[n]);
      if child.Some? {
        assert t.nodes[child.value].parent == ChildSlot(n, t.nodes[n].bit0.None?);
        assert SlotRef(t, s) != child;
      }
      assert SlotRef(t', s) == SlotRef(t, s);
    }
  }

  lemma SpliceHeld(t: Trie, n: Id, m: Id)
    requires Spliceable(t, n) && m in Splice(t, n).nodes && HeldOk(t, m)
    ensures HeldOk(Splice(t, n), m)
  {
    var t' := Splice(t, n);
    SpliceHeir(t, n);
    if OnlyKid(t.nodes[n]) != Some(m) {
      assert t'.nodes[m].parent == t.nodes[m].parent;
      assert t.nodes[m].parent != t.nodes[n].parent;
      assert !(t.nodes[m].parent.ChildSlot? && t.nodes[m].parent.node == n);
    }
  }

  /** Freeing a node with at most one child leaves the rest linked. */
  lemma SpliceOk(t: Trie, n: Id)
    requires Linked(t) && n in t.nodes && !TwoKids(t.nodes[n])
    ensures Spliceable(t, n) && Linked(Splice(t, n))
  {
    assert HeldOk(t, n) && SlotOk(t, t.nodes[n].parent);
    assert SlotIn(t, ChildSlot(n, false)) && SlotOk(t, ChildSlot(n, false));
    assert SlotIn(t, ChildSlot(n, true)) && SlotOk(t, ChildSlot(n, true));
    var t' := Splice(t, n);
    forall s | SlotIn(t', s)
      ensures SlotOk(t', s)
    {
      if SlotIn(t, s) { assert SlotOk(t, s); }
      SpliceSlot(t, n, s);
    }
    forall m | m in t'.nodes
      ensures HeldOk(t', m)
    {
      assert HeldOk(t, m);
      SpliceHeld(t, n, m);
    }
  }

  function SetPeer(t: Trie, n: Id, peer: Option<Peer>): Trie
    requires n in t.nodes
  {
    t.(nodes := t.nodes[n := t.nodes[n].(peer := peer)])
  }

  lemma SetPeerOk(t: Trie, n: Id, peer: Option<Peer>)
    requires Linked(t) && n in t.nodes
    ensures Linked(SetPeer(t, n, peer))
  {
    var t' := SetPeer(t, n, peer);
    forall s | SlotIn(t', s)
      ensures SlotOk(t', s)
    {
      assert SlotOk(t, s);
    }
    forall m | m in t'.nodes
      ensures HeldOk(t', m)
    {
      assert HeldOk(t, m);
    }
  }
}
