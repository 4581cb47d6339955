/**
 Where a key's prefixes can be in the trie: every node whose prefix matches the key lies on
 the one downward path the lookup walks, so walking that path is longest-prefix match on the
 plain table from prefixes to peers.
 */
module TrieLookup {
  import opened Maybe
  import opened TrieShape

  predicate Matches(n: Node, key: seq<bool>) {
    n.cidr <= |n.bits| == |key| && n.bits[..n.cidr] == key[..n.cidr]
  }

  function Root(t: Trie, width: nat): Option<Id> { SlotRef(t, RootSlot(width)) }

  ghost function Height(t: Trie, r: Option<Id>, key: seq<bool>): nat
    requires r.Some? ==> r.value in t.nodes
  {
    if r.None? then 0
    else if t.nodes[r.value].cidr > |key| then 1
    else 2 + |key| - t.nodes[r.value].cidr
  }

  /** The nodes the walk for key visits, starting from r. */
  ghost function Path(t: Trie, r: Option<Id>, key: seq<bool>): seq<Id>
    requires Linked(t) && (r.Some? ==> r.value in t.nodes)
    decreases Height(t, r, key)
  {
    if r.None? || !Matches(t.nodes[r.value], key) then []
    else if t.nodes[r.value].cidr == |key| then [r.value]
    else
      var n := t.nodes[r.value];
      assert SlotIn(t, ChildSlot(r.value, key[n.cidr])) && SlotOk(t, ChildSlot(r.value, key[n.cidr]));
      [r.value] + Path(t, Kid(n, key[n.cidr]), key)
  }

  lemma RootIn(t: Trie, width: nat)
    requires Linked(t)
    ensures Root(t, width).Some? ==>
              Root(t, width).value in t.nodes && t.nodes[Root(t, width).value].parent == RootSlot(width)
  {
    assert SlotIn(t, RootSlot(width)) && SlotOk(t, RootSlot(width));
  }

  lemma KidIn(t: Trie, n: Id, bit: bool)
    requires Linked(t) && n in t.nodes && Kid(t.nodes[n], bit).Some?
    ensures var c := Kid(t.nodes[n], bit).value;
            c in t.nodes && t.nodes[c].parent == ChildSlot(n, bit) && Below(t.nodes[n], bit, t.nodes[c])
  {
    assert SlotIn(t, ChildSlot(n, bit)) && SlotOk(t, ChildSlot(n, bit));
  }

  lemma {:induction false} PathNodes(t: Trie, r: Option<Id>, key: seq<bool>, x: Id)
    requires Linked(t) && (r.Some? ==> r.value in t.nodes)
    requires x in Path(t, r, key)
    ensures r.Some? && x in t.nodes && Matches(t.nodes[x], key) && t.nodes[r.value].cidr <= t.nodes[x].cidr
    decreases Height(t, r, key)
  {
    var n := t.nodes[r.value];
    if x != r.value {
      var k := Kid(n, key[n.cidr]);
      if k.Some? { KidIn(t, r.value, key[n.cidr]); }
      PathNodes(t, k, key, x);
    }
  }

  lemma {:induction false} PathStep(t: Trie, r: Option<Id>, key: seq<bool>, x: Id, bit: bool)
    requires Linked(t) && (r.Some? ==> r.value in t.nodes)
    requires x in Path(t, r, key) && x in t.nodes && t.nodes[x].cidr < |key| && bit == key[t.nodes[x].cidr]
    requires Kid(t.nodes[x], bit).Some?
    requires Kid(t.nodes[x], bit).value in t.nodes && Matches(t.nodes[Kid(t.nodes[x], bit).value], key)
    ensures Kid(t.nodes[x], bit).value in Path(t, r, key)
    decreases Height(t, r, key)
  {
    var n := t.nodes[r.value];
    var k := Kid(n, key[n.cidr]);
    if k.Some? { KidIn(t, r.value, key[n.cidr]); }
    if x != r.value { PathStep(t, k, key, x, bit); }
  }

  /** Every node whose prefix matches the key is on the walk. */
  lemma {:induction false} PathAll(t: Trie, key: seq<bool>, m: Id)
    requires Linked(t) && m in t.nodes && Matches(t.nodes[m], key)
    requires Root(t, |key|).Some? ==> Root(t, |key|).value in t.nodes
    ensures m in Path(t, Root(t, |key|), key)
    decreases t.nodes[m].cidr
  {
    var node := t.nodes[m];
    assert HeldOk(t, m) && SlotOk(t, node.parent);
    if node.parent.ChildSlot? {
      var p := t.nodes[node.parent.node];
      assert node.bits[..p.cidr] == node.bits[..node.cidr][..p.cidr];
      assert key[..p.cidr] == key[..node.cidr][..p.cidr];
      assert node.bits[p.cidr] == node.bits[..node.cidr][p.cidr] == key[..node.cidr][p.cidr] == key[p.cidr];
      PathAll(t, key, node.parent.node);
      PathStep(t, Root(t, |key|), key, node.parent.node, node.parent.bit);
    }
  }

  lemma {:induction false} PathOrdered(t: Trie, r: Option<Id>, key: seq<bool>, x: Id, y: Id)
    requires Linked(t) && (r.Some? ==> r.value in t.nodes)
    requires x in Path(t, r, key) && y in Path(t, r, key) && x in t.nodes && y in t.nodes
    requires t.nodes[x].cidr == t.nodes[y].cidr
    ensures x == y
    decreases Height(t, r, key)
  {
    var n := t.nodes[r.value];
    if x != y {
      var k := Kid(n, key[n.cidr]);
      if k.Some? { KidIn(t, r.value, key[n.cidr]); }
      if x != r.value { PathNodes(t, k, key, x); }
      if y != r.value { PathNodes(t, k, key, y); }
      PathOrdered(t, k, key, x, y);
    }
  }

  /** No two nodes carry the same prefix. */
  lemma PrefixesDiffer(t: Trie, x: Id, y: Id)
    requires Linked(t) && x in t.nodes && y in t.nodes
    requires HeldOk(t, x) && HeldOk(t, y) && PrefixOf(t.nodes[x]) == PrefixOf(t.nodes[y])
    ensures x == y
  {
    var key := t.nodes[x].bits;
    RootIn(t, |key|);
    assert |t.nodes[x].bits[..t.nodes[x].cidr]| == |t.nodes[y].bits[..t.nodes[y].cidr]|;
    PathAll(t, key, x);
    PathAll(t, key, y);
    PathOrdered(t, Root(t, |key|), key, x, y);
  }

  // ---------------------------------------------------------------- the plain table

  /** The table holds exactly the prefixes of the nodes that have a peer. */
  ghost predicate Agrees(nodes: map<Id, Node>, table: map<Prefix, Peer>) {
    && (forall n :: n in nodes && nodes[n].peer.Some? ==>
          nodes[n].cidr <= |nodes[n].bits| && PrefixOf(nodes[n]) in table
          && table[PrefixOf(nodes[n])] == nodes[n].peer.value)
    && (forall p :: p in table ==> exists n :: Carries(nodes, n, p))
  }

  ghost predicate Carries(nodes: map<Id, Node>, n: Id, p: Prefix) {
    n in nodes && nodes[n].peer.Some? && nodes[n].cidr <= |nodes[n].bits| && PrefixOf(nodes[n]) == p
  }

  /** The trie determines the table it stands for. */
  lemma AgreesOnce(nodes: map<Id, Node>, a: map<Prefix, Peer>, b: map<Prefix, Peer>)
    requires Agrees(nodes, a) && Agrees(nodes, b)
    ensures a == b
  {
    forall p | p in a ensures p in b && a[p] == b[p] { var n :| Carries(nodes, n, p); }
    forall p | p in b ensures p in a { var n :| Carries(nodes, n, p); }
    assert a.Keys == b.Keys;
  }

  /** Longest-prefix match on the table, trying lengths from k downwards. */
  function LongestMatch(table: map<Prefix, Peer>, key: seq<bool>, k: nat): Option<Peer>
    requires k <= |key|
  {
    if Prefix(|key|, key[..k]) in table then Some(table[Prefix(|key|, key[..k])])
    else if k == 0 then None
    else LongestMatch(table, key, k - 1)
  }

  /** LongestMatch is the entry of the longest prefix that is in the table. */
  lemma {:induction false} LongestMatchIs(table: map<Prefix, Peer>, key: seq<bool>, k: nat, c: nat)
    requires c <= k <= |key| && Prefix(|key|, key[..c]) in table
    requires forall j :: c < j <= k ==> Prefix(|key|, key[..j]) !in table
    ensures LongestMatch(table, key, k) == Some(table[Prefix(|key|, key[..c])])
  {
    if c < k { LongestMatchIs(table, key, k - 1, c); }
  }

  lemma {:induction false} NoMatchIs(table: map<Prefix, Peer>, key: seq<bool>, k: nat)
    requires k <= |key| && forall j :: 0 <= j <= k ==> Prefix(|key|, key[..j]) !in table
    ensures LongestMatch(table, key, k).None?
  {
    if k == 0 {
    } else {
      NoMatchIs(table, key, k - 1);
    }
  }

  /** The last node with a peer among those in a piece of the walk. */
  ghost predicate LastWithPeer(nodes: map<Id, Node>, path: seq<Id>, found: Option<Id>) {
    && (found.Some? ==> found.value in path && found.value in nodes && nodes[found.value].peer.Some?)
    && (forall x :: x in path && x in nodes && nodes[x].peer.Some? ==>
          found.Some? && nodes[x].cidr <= nodes[found.value].cidr)
  }

  lemma {:induction false} MatchOnPath(t: Trie, table: map<Prefix, Peer>, key: seq<bool>, j: nat) returns (n: Id)
    requires Linked(t) && Agrees(t.nodes, table) && j <= |key| && Prefix(|key|, key[..j]) in table
    requires Root(t, |key|).Some? ==> Root(t, |key|).value in t.nodes
    ensures n in t.nodes && n in Path(t, Root(t, |key|), key) && t.nodes[n].peer.Some? && t.nodes[n].cidr == j
  {
    n :| Carries(t.nodes, n, Prefix(|key|, key[..j]));
    assert |t.nodes[n].bits[..t.nodes[n].cidr]| == |key[..j]|;
    PathAll(t, key, n);
  }

  /** Walking down and remembering the last peer is longest-prefix match. */
  lemma WalkIsLongestMatch(t: Trie, table: map<Prefix, Peer>, key: seq<bool>, found: Option<Id>)
    requires Linked(t) && Agrees(t.nodes, table)
    requires Root(t, |key|).Some? ==> Root(t, |key|).value in t.nodes
    requires LastWithPeer(t.nodes, Path(t, Root(t, |key|), key), found)
    ensures LongestMatch(table, key, |key|) ==
            if found.Some? then t.nodes[found.value].peer else None
  {
    var path := Path(t, Root(t, |key|), key);
    if found.Some? {
      var node := t.nodes[found.value];
      PathNodes(t, Root(t, |key|), key, found.value);
      assert PrefixOf(node) == Prefix(|key|, key[..node.cidr]);
      forall j | node.cidr < j <= |key|
        ensures Prefix(|key|, key[..j]) !in table
      {
        if Prefix(|key|, key[..j]) in table { var n := MatchOnPath(t, table, key, j); }
      }
      LongestMatchIs(table, key, |key|, node.cidr);
    } else {
      forall j | 0 <= j <= |key|
        ensures Prefix(|key|, key[..j]) !in table
      {
        if Prefix(|key|, key[..j]) in table { var n := MatchOnPath(t, table, key, j); }
      }
      NoMatchIs(table, key, |key|);
    }
  }

  /** The last node with a peer on the walk from r, or best when there is none. */
  ghost function Found(t: Trie, r: Option<Id>, key: seq<bool>, best: Option<Id>): Option<Id>
    requires Linked(t) && (r.Some? ==> r.value in t.nodes)
    decreases Height(t, r, key)
  {
    if r.None? || !Matches(t.nodes[r.value], key) then best
    else
      var n := t.nodes[r.value];
      var best' := if n.peer.Some? then r else best;
      if n.cidr == |key| then best'
      else
        assert SlotIn(t, ChildSlot(r.value, key[n.cidr])) && SlotOk(t, ChildSlot(r.value, key[n.cidr]));
        Found(t, Kid(n, key[n.cidr]), key, best')
  }

  /** With `seen` already walked, the walk on from r finds the last node with a peer of both. */
  lemma {:induction false} FoundIsLast(t: Trie, r: Option<Id>, key: seq<bool>, seen: seq<Id>, best: Option<Id>)
    requires Linked(t) && (r.Some? ==> r.value in t.nodes) && LastWithPeer(t.nodes, seen, best)
    requires forall x :: x in seen && r.Some? ==> x in t.nodes && t.nodes[x].cidr < t.nodes[r.value].cidr
    ensures LastWithPeer(t.nodes, seen + Path(t, r, key), Found(t, r, key, best))
    decreases Height(t, r, key)
  {
    if r.Some? && Matches(t.nodes[r.value], key) {
      var n := t.nodes[r.value];
      var best' := if n.peer.Some? then r else best;
      assert LastWithPeer(t.nodes, seen + [r.value], best');
      if n.cidr < |key| {
        var k := Kid(n, key[n.cidr]);
        if k.Some? { KidIn(t, r.value, key[n.cidr]); }
        FoundIsLast(t, k, key, seen + [r.value], best');
        assert seen + [r.value] + Path(t, k, key) == seen + Path(t, r, key);
      }
    } else {
      assert seen + Path(t, r, key) == seen;
    }
  }

  /** find_node() is longest-prefix match. */
  lemma FoundIsLongestMatch(t: Trie, table: map<Prefix, Peer>, key: seq<bool>)
    requires Linked(t) && Agrees(t.nodes, table)
    requires Root(t, |key|).Some? ==> Root(t, |key|).value in t.nodes
    ensures var found := Found(t, Root(t, |key|), key, None);
            && (found.Some? ==> found.value in t.nodes && t.nodes[found.value].peer.Some?)
            && LongestMatch(table, key, |key|) == if found.Some? then t.nodes[found.value].peer else None
  {
    FoundIsLast(t, Root(t, |key|), key, [], None);
    assert [] + Path(t, Root(t, |key|), key) == Path(t, Root(t, |key|), key);
    WalkIsLongestMatch(t, table, key, Found(t, Root(t, |key|), key, None));
  }

  // ---------------------------------------------------------------- node_placement()

  ghost predicate Blocked(t: Trie, r: Option<Id>, key: seq<bool>, cidr: nat) {
    r.Some? ==> r.value in t.nodes && !(t.nodes[r.value].cidr <= cidr && Matches(t.nodes[r.value], key))
  }

  /** Where a search from root for key/cidr can stand: on a shorter node on the walk, facing r. */
  ghost predicate Stands(t: Trie, root: Option<Id>, key: seq<bool>, cidr: nat, at: Option<Id>, r: Option<Id>) {
    if at.None? then r == root
    else
      && at.value in t.nodes && t.nodes[at.value].cidr < cidr <= |key| && Matches(t.nodes[at.value], key)
      && r == Kid(t.nodes[at.value], key[t.nodes[at.value].cidr])
  }

  /** Between two nodes of the walk, the upper one's pointer towards the key leads on. */
  lemma {:induction false} PathGoesOn(t: Trie, r: Option<Id>, key: seq<bool>, a: Id, m: Id)
    requires Linked(t) && (r.Some? ==> r.value in t.nodes)
    requires a in Path(t, r, key) && m in Path(t, r, key) && a in t.nodes && m in t.nodes
    requires t.nodes[a].cidr < t.nodes[m].cidr
    ensures t.nodes[a].cidr < |key| && var k := Kid(t.nodes[a], key[t.nodes[a].cidr]);
            k.Some? && k.value in t.nodes && Matches(t.nodes[k.value], key) && t.nodes[k.value].cidr <= t.nodes[m].cidr
    decreases Height(t, r, key)
  {
    var n := t.nodes[r.value];
    PathNodes(t, r, key, a);
    PathNodes(t, r, key, m);
    var k := Kid(n, key[n.cidr]);
    if k.Some? { KidIn(t, r.value, key[n.cidr]); }
    PathNodes(t, k, key, m);
    if a != r.value { PathGoesOn(t, k, key, a, m); }
  }

  /** Facing a pointer that leads away, no node carries the prefix searched for. */
  lemma BlockedMeansAbsent(t: Trie, key: seq<bool>, cidr: nat, at: Option<Id>, r: Option<Id>, m: Id)
    requires Linked(t) && cidr <= |key| && Stands(t, Root(t, |key|), key, cidr, at, r) && Blocked(t, r, key, cidr)
    requires m in t.nodes && t.nodes[m].cidr <= |t.nodes[m].bits|
    ensures PrefixOf(t.nodes[m]) != Prefix(|key|, key[..cidr])
  {
    if PrefixOf(t.nodes[m]) == Prefix(|key|, key[..cidr]) {
      assert |t.nodes[m].bits[..t.nodes[m].cidr]| == |key[..cidr]|;
      RootIn(t, |key|);
      PathAll(t, key, m);
      PathNodes(t, Root(t, |key|), key, m);
      if at.Some? {
        PathAll(t, key, at.value);
        PathGoesOn(t, Root(t, |key|), key, at.value, m);
      }
    }
  }
}
