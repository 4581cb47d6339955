/**
 The AllowedIPs table as the source updates it in place: both tries, the peers' node lists,
 and the operations on them, each proved against the plain map from prefixes to peers.
 */
module AllowedIps {
  import opened Maybe
  import opened TrieShape
  import opened TrieLookup
  import opened TrieUpdate
  import Walk = TrieWalk
  import Address = AddressBits

  datatype Status = Ok | InvalidArgument | OutOfMemory

  // ---------------------------------------------------------------- peer lists

  function ListOf(lists: map<Peer, seq<Id>>, p: Peer): seq<Id> { if p in lists then lists[p] else [] }

  predicate OnList(lists: map<Peer, seq<Id>>, p: Peer, n: Id) { n in ListOf(lists, p) }

  ghost predicate ListsOk(nodes: map<Id, Node>, lists: map<Peer, seq<Id>>) {
    Listed(nodes, lists) && AllNoRepeat(lists)
  }

  predicate NoRepeat(s: seq<Id>) { s == [] || (s[0] !in s[1..] && NoRepeat(s[1..])) }

  /** A list without node n. */
  function Without(s: seq<Id>, n: Id): (r: seq<Id>)
    ensures forall m :: m in r <==> m in s && m != n
  {
    if s == [] then []
    else if s[0] == n then Without(s[1..], n)
    else [s[0]] + Without(s[1..], n)
  }

  lemma {:induction false} WithoutNoRepeat(s: seq<Id>, n: Id)
    requires NoRepeat(s)
    ensures NoRepeat(Without(s, n))
    ensures s != [] && s[0] == n ==> Without(s, n) == s[1..]
  {
    if s != [] {
      WithoutNoRepeat(s[1..], n);
      if s[0] == n {
        WithoutAbsent(s[1..], n);
      } else {
        var r := Without(s[1..], n);
        assert ([s[0]] + r)[1..] == r;
      }
    }
  }

  lemma {:induction false} AppendNoRepeat(s: seq<Id>, n: Id)
    requires NoRepeat(s) && n !in s
    ensures NoRepeat(s + [n])
  {
    if s == [] {
      assert s + [n] == [n];
    } else {
      AppendNoRepeat(s[1..], n);
      assert (s + [n])[1..] == s[1..] + [n];
    }
  }

  lemma {:induction false} WithoutAbsent(s: seq<Id>, n: Id)
    requires n !in s
    ensures Without(s, n) == s
  {
    if s == [] {
    } else {
      WithoutAbsent(s[1..], n);
    }
  }

  /** list_del() of a node that is on its peer's list, or on none. */
  function ListDel(lists: map<Peer, seq<Id>>, n: Id, peer: Option<Peer>): map<Peer, seq<Id>> {
    if peer.None? then lists else lists[peer.value := Without(ListOf(lists, peer.value), n)]
  }

  /** list_add_tail() */
  function ListAddTail(lists: map<Peer, seq<Id>>, n: Id, peer: Peer): map<Peer, seq<Id>> {
    lists[peer := ListOf(lists, peer) + [n]]
  }

  ghost predicate AllNoRepeat(lists: map<Peer, seq<Id>>) { forall p :: p in lists ==> NoRepeat(lists[p]) }

  lemma DelNoRepeat(lists: map<Peer, seq<Id>>, n: Id, peer: Option<Peer>)
    requires AllNoRepeat(lists)
    ensures AllNoRepeat(ListDel(lists, n, peer))
  {
    if peer.Some? { WithoutNoRepeat(ListOf(lists, peer.value), n); }
  }

  lemma AddNoRepeat(lists: map<Peer, seq<Id>>, n: Id, peer: Peer)
    requires AllNoRepeat(lists) && n !in ListOf(lists, peer)
    ensures AllNoRepeat(ListAddTail(lists, n, peer))
  {
    AppendNoRepeat(ListOf(lists, peer), n);
  }

  /** A node is on the list of its peer and on no other. */
  ghost predicate Listed(nodes: map<Id, Node>, lists: map<Peer, seq<Id>>) {
    && (forall p, n :: p in lists && n in lists[p] ==> n in nodes && nodes[n].peer == Some(p))
    && (forall n :: n in nodes && nodes[n].peer.Some? ==> n in ListOf(lists, nodes[n].peer.value))
  }

  lemma ListedEntered(nodes: map<Id, Node>, nodes': map<Id, Node>, lists: map<Peer, seq<Id>>, id: Id, node: Node)
    requires Listed(nodes, lists) && Entered(nodes, nodes', id, node) && node.peer.Some?
    ensures Listed(nodes', ListAddTail(lists, id, node.peer.value))
  {
    var lists' := ListAddTail(lists, id, node.peer.value);
    forall n | n in nodes' && nodes'[n].peer.Some?
      ensures n in ListOf(lists', nodes'[n].peer.value)
    {
      if n != id { assert SameEntry(nodes, nodes', n); }
    }
    forall p, n | p in lists' && n in lists'[p]
      ensures n in nodes' && nodes'[n].peer == Some(p)
    {
      if n != id { assert n in ListOf(lists, p) && SameEntry(nodes, nodes', n); }
    }
  }

  lemma ListsEntered(nodes: map<Id, Node>, nodes': map<Id, Node>, lists: map<Peer, seq<Id>>, id: Id, node: Node)
    requires ListsOk(nodes, lists) && Entered(nodes, nodes', id, node) && node.peer.Some?
    ensures ListsOk(nodes', ListAddTail(lists, id, node.peer.value))
  {
    ListedEntered(nodes, nodes', lists, id, node);
    AddNoRepeat(lists, id, node.peer.value);
  }

  lemma ListedRemoved(nodes: map<Id, Node>, nodes': map<Id, Node>, lists: map<Peer, seq<Id>>, n: Id)
    requires Listed(nodes, lists) && RemovedEntries(nodes, nodes', n) && n in nodes
    ensures Listed(nodes', ListDel(lists, n, nodes[n].peer))
  {
    var lists' := ListDel(lists, n, nodes[n].peer);
    forall p, m | p in lists' && m in lists'[p]
      ensures m in nodes' && nodes'[m].peer == Some(p)
    {
      assert m in ListOf(lists, p) && m != n;
    }
    forall m | m in nodes' && nodes'[m].peer.Some?
      ensures m in ListOf(lists', nodes'[m].peer.value)
    {
      assert SameEntry(nodes, nodes', m);
    }
  }

  lemma ListsRemoved(nodes: map<Id, Node>, nodes': map<Id, Node>, lists: map<Peer, seq<Id>>, n: Id)
    requires ListsOk(nodes, lists) && RemovedEntries(nodes, nodes', n) && n in nodes
    ensures ListsOk(nodes', ListDel(lists, n, nodes[n].peer))
  {
    ListedRemoved(nodes, nodes', lists, n);
    DelNoRepeat(lists, n, nodes[n].peer);
  }

  lemma ListsMoved(nodes: map<Id, Node>, lists: map<Peer, seq<Id>>, n: Id, peer: Peer)
    requires ListsOk(nodes, lists) && n in nodes
    ensures ListsOk(nodes[n := nodes[n].(peer := Some(peer))], ListAddTail(ListDel(lists, n, nodes[n].peer), n, peer))
  {
    var bare := nodes[n := nodes[n].(peer := None)];
    ListsRemoved(nodes, bare, lists, n);
    var mid := ListDel(lists, n, nodes[n].peer);
    ListedSet(bare, mid, n, peer);
    assert bare[n := bare[n].(peer := Some(peer))] == nodes[n := nodes[n].(peer := Some(peer))];
    AddNoRepeat(mid, n, peer);
  }

  lemma ListedSet(nodes: map<Id, Node>, lists: map<Peer, seq<Id>>, n: Id, peer: Peer)
    requires Listed(nodes, lists) && n in nodes && nodes[n].peer.None?
    ensures Listed(nodes[n := nodes[n].(peer := Some(peer))], ListAddTail(lists, n, peer))
  {
    var nodes', lists' := nodes[n := nodes[n].(peer := Some(peer))], ListAddTail(lists, n, peer);
    forall p, m | p in lists' && m in lists'[p]
      ensures m in nodes' && nodes'[m].peer == Some(p)
    {
      if m != n { assert m in ListOf(lists, p); }
    }
  }

  /** prefix_matches() */
  predicate PrefixMatches(n: Node, key: seq<bool>)
    requires |n.bits| == |key|
  {
    Address.Common(n.bits, key) >= n.cidr
  }

  lemma PrefixMatchesIs(n: Node, key: seq<bool>)
    requires n.cidr <= |n.bits| == |key|
    ensures PrefixMatches(n, key) <==> Matches(n, key)
  {
    Address.CommonAtLeast(n.bits, key, n.cidr);
  }

  class Table {
    var nodes: map<Id, Node>
    var roots: map<nat, Id>
    var lists: map<Peer, seq<Id>>
    ghost var table: map<Prefix, Peer>

    ghost function View(): Trie reads this { Trie(nodes, roots) }

    ghost predicate Valid()
      reads this
    {
      TrieOk(View()) && Agrees(nodes, table) && ListsOk(nodes, lists)
    }

    /** wg_allowedips_init() */
    constructor ()
      ensures Valid() && table == map[] && nodes == map[] && lists == map[]
    {
      nodes, roots, lists, table := map[], map[], map[], map[];
    }

    /** The walk is at node, and everything it will still visit is below. */
    ghost predicate At(node: Option<Id>, key: seq<bool>)
      reads this
    {
      node.Some? ==> node.value in nodes && Sized(nodes[node.value]) && |nodes[node.value].bits| == |key|
    }

    lemma AtRoot(key: seq<bool>)
      requires Linked(View())
      ensures At(Root(View(), |key|), key)
    {
      RootIn(View(), |key|);
      assert SlotOk(View(), RootSlot(|key|));
      if Root(View(), |key|).Some? { assert HeldOk(View(), Root(View(), |key|).value); }
    }

    lemma AtKid(n: Id, bit: bool, key: seq<bool>)
      requires Linked(View()) && n in nodes && |nodes[n].bits| == |key|
      ensures At(Kid(nodes[n], bit), key)
      ensures Kid(nodes[n], bit).Some? ==> nodes[n].cidr < nodes[Kid(nodes[n], bit).value].cidr
    {
      if Kid(nodes[n], bit).Some? {
        KidIn(View(), n, bit);
        assert HeldOk(View(), Kid(nodes[n], bit).value);
      }
    }

    /** find_node(): the result's peer is the longest-prefix match on the table. */
    method FindNode(key: seq<bool>) returns (found: Option<Id>)
      requires Valid()
      ensures found.Some? ==> found.value in nodes && nodes[found.value].peer.Some?
      ensures LongestMatch(table, key, |key|) == if found.Some? then nodes[found.value].peer else None
    {
      ghost var t := View();
      AtRoot(key);
      var node := if |key| in roots then Some(roots[|key|]) else None;
      found := None;
      while node.Some? && PrefixMatches(nodes[node.value], key)
        invariant At(node, key)
        invariant Found(t, Root(t, |key|), key, None) == Found(t, node, key, found)
        decreases Height(t, node, key)
      {
        PrefixMatchesIs(nodes[node.value], key);
        if nodes[node.value].peer.Some? { found := node; }
        if nodes[node.value].cidr == |key| {
          node := None;
          break;
        }
        var bit := key[nodes[node.value].cidr];
        AtKid(node.value, bit, key);
        node := Kid(nodes[node.value], bit);
      }
      if node.Some? { PrefixMatchesIs(nodes[node.value], key); }
      FoundIsLongestMatch(t, table, key);
    }

    /** lookup(), with the reference count of the peer left out. */
    method Lookup(key: seq<bool>) returns (peer: Option<Peer>)
      requires Valid()
      ensures peer == LongestMatch(table, key, |key|)
    {
      var node := FindNode(key);
      peer := if node.Some? then nodes[node.value].peer else None;
    }

    /** node_placement(): the node of exactly this prefix, or the place where it belongs. */
    method NodePlacement(key: seq<bool>, cidr: nat) returns (exact: bool, at: Option<Id>)
      requires Valid() && (|key| == 32 || |key| == 128) && cidr <= |key|
      ensures exact ==> at.Some? && at.value in nodes && nodes[at.value].cidr == cidr && Matches(nodes[at.value], key)
      ensures !exact ==> Placed(View(), key, cidr, at)
    {
      ghost var t := View();
      AtRoot(key);
      var node := if |key| in roots then Some(roots[|key|]) else None;
      at, exact := None, false;
      while node.Some? && nodes[node.value].cidr <= cidr && PrefixMatches(nodes[node.value], key)
        invariant !exact && At(node, key) && Stands(t, Root(t, |key|), key, cidr, at, node)
        decreases Height(t, node, key)
      {
        PrefixMatchesIs(nodes[node.value], key);
        at := node;
        if nodes[at.value].cidr == cidr { return true, at; }
        var bit := key[nodes[at.value].cidr];
        AtKid(at.value, bit, key);
        node := Kid(nodes[at.value], bit);
      }
      if node.Some? { PrefixMatchesIs(nodes[node.value], key); }
      BlockedIsPlaced(t, key, cidr, at, node);
    }

    // -------------------------------------------------------------- pointer writes

    method SetSlot(s: Slot, r: Option<Id>)
      requires SlotIn(View(), s)
      modifies this`nodes, this`roots
      ensures View() == SlotSet(old(View()), s, r)
    {
      match s
      case RootSlot(w) => roots := if r.Some? then roots[w := r.value] else roots - {w};
      case ChildSlot(p, b) => nodes := nodes[p := WithKid(nodes[p], b, r)];
    }

    /** connect_node() */
    method ConnectNode(s: Slot, n: Id)
      requires SlotIn(View(), s) && n in nodes
      modifies this`nodes, this`roots
      ensures View() == Connect(old(View()), s, n)
    {
      nodes := nodes[n := nodes[n].(parent := s)];
      SetSlot(s, Some(n));
    }

    /** choose_and_connect_node() */
    method ChooseAndConnectNode(parent: Id, n: Id)
      requires parent in nodes && n in nodes && nodes[parent].cidr < |nodes[n].bits|
      modifies this`nodes, this`roots
      ensures View() == Connect(old(View()), ChildSlot(parent, old(nodes[n].bits[nodes[parent].cidr])), n)
    {
      ConnectNode(ChildSlot(parent, nodes[n].bits[nodes[parent].cidr]), n);
    }

    // -------------------------------------------------------------- add()

    /** A node for the new prefix has been made and listed, but no pointer leads to it yet. */
    ghost predicate Pending(t: Trie, was: map<Peer, seq<Id>>, id: Id, node: Node)
      reads this
    {
      && TrieOk(t) && Agrees(t.nodes, table) && ListsOk(t.nodes, was) && node.peer.Some? && id !in t.nodes
      && View() == t.(nodes := t.nodes[id := node]) && lists == ListAddTail(was, id, node.peer.value)
    }

    /** A trie in which the pending node has its place makes the table valid again. */
    ghost method Settle(t: Trie, was: map<Peer, seq<Id>>, id: Id, node: Node)
      requires Agrees(t.nodes, table) && ListsOk(t.nodes, was) && node.peer.Some? && node.cidr <= |node.bits|
      requires lists == ListAddTail(was, id, node.peer.value)
      requires TrieOk(View()) && Entered(t.nodes, nodes, id, node)
      requires forall n :: n in t.nodes && t.nodes[n].cidr <= |t.nodes[n].bits| ==>
               PrefixOf(t.nodes[n]) != PrefixOf(node)
      modifies this`table
      ensures Valid() && table == old(table)[PrefixOf(node) := node.peer.value]
    {
      EnteredPut(t.nodes, nodes, table, id, node);
      ListsEntered(t.nodes, nodes, was, id, node);
      table := table[PrefixOf(node) := node.peer.value];
    }

    /** The slot was empty. */
    method PutLeaf(ghost t: Trie, ghost was: map<Peer, seq<Id>>, key: seq<bool>, cidr: nat, at: Option<Id>, id: Id,
                   peer: Peer)
      requires Pending(t, was, id, NewNode(Some(peer), key, cidr, RootSlot(0))) && Placed(t, key, cidr, at)
      requires SlotRef(t, PlaceSlot(t, key, at)).None?
      modifies this
      ensures Valid() && table == old(table)[Prefix(|key|, key[..cidr]) := peer]
    {
      ghost var node := NewNode(Some(peer), key, cidr, RootSlot(0));
      ghost var s := PlaceSlot(t, key, at);
      ConnectNode(if at.None? then RootSlot(|key|) else ChildSlot(at.value, key[nodes[at.value].cidr]), id);
      ConnectLeaf(t, id, node, s);
      AddLeaf(t, key, cidr, at, id, peer);
      LeafEntries(t, id, node.(parent := s));
      Settle(t, was, id, node);
    }

    /** Hands the slot the search stopped at to node n. */
    method ConnectAt(key: seq<bool>, at: Option<Id>, n: Id)
      requires n in nodes && nodes[n].bits == key && (at.Some? ==> at.value in nodes && nodes[at.value].cidr < |key|)
      modifies this`nodes, this`roots
      ensures View() == Connect(old(View()), old(PlaceSlot(View(), key, at)), n)
    {
      if at.None? {
        ConnectNode(RootSlot(|key|), n);
      } else {
        ChooseAndConnectNode(at.value, n);
      }
    }

    /** The stretch of add() that puts node id above down. */
    method RewireAbove(ghost t: Trie, key: seq<bool>, at: Option<Id>, down: Id, id: Id, ghost node: Node)
      requires View() == t.(nodes := t.nodes[id := node]) && node.bits == key && id !in t.nodes && down in t.nodes
      requires at.Some? ==> at.value in t.nodes && at.value != down && t.nodes[at.value].cidr < |key|
      requires node.cidr < |t.nodes[down].bits|
      modifies this`nodes, this`roots
      ensures var bit, s := t.nodes[down].bits[node.cidr], PlaceSlot(t, key, at);
              View() == AboveAt(t, id, WithKid(node, bit, Some(down)).(parent := s), down, bit)
    {
      ChooseAndConnectNode(id, down);
      ConnectAt(key, at, id);
      ConnectAbove(t, id, node, PlaceSlot(t, key, at), down, t.nodes[down].bits[node.cidr]);
    }

    /** The new prefix covers the node that was in its slot. */
    method PutAbove(ghost t: Trie, ghost was: map<Peer, seq<Id>>, key: seq<bool>, cidr: nat, at: Option<Id>, down: Id,
                    id: Id, peer: Peer)
      requires Pending(t, was, id, NewNode(Some(peer), key, cidr, RootSlot(0))) && Occupied(t, key, cidr, at, down)
      requires |t.nodes[down].bits| == |key| && cidr < |key| && Parting(t, key, cidr, down) == cidr
      modifies this
      ensures Valid() && table == old(table)[Prefix(|key|, key[..cidr]) := peer]
    {
      ghost var node := NewNode(Some(peer), key, cidr, RootSlot(0));
      AboveReady(t, key, cidr, at, down, id, peer);
      RewireAbove(t, key, at, down, id, node);
      Settle(t, was, id, node);
    }

    /** The stretch of add() that puts a fork above down and node id. */
    method RewireSplit(ghost t: Trie, key: seq<bool>, common: nat, at: Option<Id>, down: Id, glue: Id, id: Id,
                       ghost node: Node)
      requires View() == t.(nodes := t.nodes[id := node]) && node.bits == key && id !in t.nodes && down in t.nodes
      requires at.Some? ==> at.value in t.nodes && at.value != down && t.nodes[at.value].cidr < |key|
      requires common < |key| == |t.nodes[down].bits| && key[common] != t.nodes[down].bits[common]
      requires glue !in t.nodes && glue != id
      modifies this`nodes, this`roots
      ensures var bit, s := t.nodes[down].bits[common], PlaceSlot(t, key, at);
              View() == LeafAt(AboveAt(t, glue, WithKid(NewNode(None, key, common, s), bit, Some(down)), down, bit),
                               id, node.(parent := ChildSlot(glue, !bit)))
    {
      nodes := nodes[glue := NewNode(None, nodes[id].bits, common, RootSlot(0))];
      ChooseAndConnectNode(glue, down);
      ChooseAndConnectNode(glue, id);
      ConnectAt(key, at, glue);
      ConnectSplit(t, glue, NewNode(None, key, common, RootSlot(0)), id, node, PlaceSlot(t, key, at), down,
        t.nodes[down].bits[common]);
    }

    /** The new prefix and the node in its slot part company: a fork takes the slot. */
    method PutSplit(ghost t: Trie, ghost was: map<Peer, seq<Id>>, key: seq<bool>, cidr: nat, common: nat,
                    at: Option<Id>, down: Id, glue: Id, id: Id, peer: Peer)
      requires Pending(t, was, id, NewNode(Some(peer), key, cidr, RootSlot(0))) && Occupied(t, key, cidr, at, down)
      requires |t.nodes[down].bits| == |key| && common == Parting(t, key, cidr, down) < cidr
      requires glue !in t.nodes && glue != id
      modifies this
      ensures Valid() && table == old(table)[Prefix(|key|, key[..cidr]) := peer]
    {
      Fork(t, key, cidr, common, at, down, glue, id, peer);
      Settle(t, was, id, NewNode(Some(peer), key, cidr, RootSlot(0)));
    }

    /** The fork goes in and leaves a well-formed trie with one prefix more. */
    method Fork(ghost t: Trie, key: seq<bool>, ghost cidr: nat, common: nat, at: Option<Id>, down: Id, glue: Id, id: Id,
                ghost peer: Peer)
      requires TrieOk(t) && id !in t.nodes && Occupied(t, key, cidr, at, down)
      requires View() == t.(nodes := t.nodes[id := NewNode(Some(peer), key, cidr, RootSlot(0))])
      requires |t.nodes[down].bits| == |key| && common == Parting(t, key, cidr, down) < cidr
      requires glue !in t.nodes && glue != id
      modifies this`nodes, this`roots
      ensures TrieOk(View()) && Entered(t.nodes, nodes, id, NewNode(Some(peer), key, cidr, RootSlot(0)))
    {
      SplitReady(t, key, cidr, common, at, down, glue, id, peer);
      RewireSplit(t, key, common, at, down, glue, id, NewNode(Some(peer), key, cidr, RootSlot(0)));
    }

    /** The prefix is in the trie already: its node changes hands. */
    method Replace(n: Id, peer: Peer)
      requires Valid() && n in nodes && nodes[n].cidr <= |nodes[n].bits|
      modifies this
      ensures Valid() && table == old(table)[old(PrefixOf(nodes[n])) := peer]
    {
      ReplaceOk(View(), table, n, peer);
      ListsMoved(nodes, lists, n, peer);
      lists := ListAddTail(ListDel(lists, n, nodes[n].peer), n, peer);
      table := table[PrefixOf(nodes[n]) := peer];
      nodes := nodes[n := nodes[n].(peer := Some(peer))];
    }

    /** The first allocation of add() and the writes that follow it at once. */
    method MakeNode(key: seq<bool>, cidr: nat, id: Id, peer: Peer)
      requires Valid() && id !in nodes
      modifies this`nodes, this`lists
      ensures Pending(old(View()), old(lists), id, NewNode(Some(peer), key, cidr, RootSlot(0)))
    {
      nodes := nodes[id := NewNode(Some(peer), key, cidr, RootSlot(0))];
      lists := ListAddTail(lists, id, peer);
    }

    /** Undoes MakeNode when the second allocation fails. */
    method DropNode(ghost t: Trie, ghost was: map<Peer, seq<Id>>, id: Id, ghost node: Node)
      requires Pending(t, was, id, node)
      modifies this`nodes, this`lists
      ensures Valid() && View() == t && forall p :: ListOf(lists, p) == ListOf(was, p)
    {
      lists := ListDel(lists, id, nodes[id].peer);
      nodes := nodes - {id};
      assert t.nodes[id := node] - {id} == t.nodes;
      assert id !in ListOf(was, node.peer.value);
      UndoListed(was, id, node.peer.value);
      ListsSame(t.nodes, was, lists);
    }

    /** add() below the search: the pending node goes where the search stopped. */
    method PutPending(ghost t: Trie, ghost was: map<Peer, seq<Id>>, key: seq<bool>, cidr: nat, at: Option<Id>,
                      id: Id, peer: Peer, second: Option<Id>) returns (r: Status)
      requires Pending(t, was, id, NewNode(Some(peer), key, cidr, RootSlot(0))) && Placed(t, key, cidr, at)
      requires second.Some? ==> second.value !in t.nodes && second.value != id
      modifies this
      ensures Valid() && (r == Ok || (r == OutOfMemory && second.None?))
      ensures r == Ok ==> table == old(table)[Prefix(|key|, key[..cidr]) := peer]
      ensures r != Ok ==> View() == t && table == old(table) && forall p :: ListOf(lists, p) == ListOf(was, p)
    {
      var below := if at.None? then (if |key| in roots then Some(roots[|key|]) else None)
                   else Kid(nodes[at.value], key[nodes[at.value].cidr]);
      assert below == SlotRef(t, PlaceSlot(t, key, at));
      if below.None? {
        PutLeaf(t, was, key, cidr, at, id, peer);
        return Ok;
      }
      var down := below.value;
      OccupiedIn(t, key, cidr, at, down);
      PartingBetween(t, key, cidr, at, down);
      var shared := Address.Common(nodes[down].bits, key);
      var common := if cidr < shared then cidr else shared;
      if cidr == common {
        PutAbove(t, was, key, cidr, at, down, id, peer);
        return Ok;
      }
      if second.None? {
        DropNode(t, was, id, NewNode(Some(peer), key, cidr, RootSlot(0)));
        return OutOfMemory;
      }
      PutSplit(t, was, key, cidr, common, at, down, second.value, id, peer);
      return Ok;
    }

    /**
     add(): puts the prefix in the table, or reports why not and leaves the trie, the
     table and the lists as they were.  The two allocations are given as what they return.
     */
    method Add(key: seq<bool>, cidr: nat, peer: Option<Peer>, first: Option<Id>, second: Option<Id>) returns (r: Status)
      requires Valid() && (|key| == 32 || |key| == 128)
      requires first.Some? ==> first.value !in nodes
      requires second.Some? ==> second.value !in nodes && second != first
      modifies this
      ensures Valid()
      ensures r == InvalidArgument <==> cidr > |key| || peer.None?
      ensures r == OutOfMemory ==>
                (first.None? || second.None?) && !HasNode(old(View()), Prefix(|key|, key[..cidr]))
      ensures r == Ok && first.None? ==> HasNode(old(View()), Prefix(|key|, key[..cidr]))
      ensures r == Ok ==> table == old(table)[Prefix(|key|, key[..cidr]) := peer.value]
      ensures r != Ok ==> View() == old(View()) && table == old(table)
      ensures r != Ok ==> forall p :: ListOf(lists, p) == ListOf(old(lists), p)
    {
      if cidr > |key| || peer.None? { return InvalidArgument; }
      var at: Option<Id> := None;
      if |key| in roots {
        var exact;
        exact, at := NodePlacement(key, cidr);
        if exact {
          Replace(at.value, peer.value);
          return Ok;
        }
      } else {
        BlockedIsPlaced(View(), key, cidr, None, None);
      }
      if first.None? { return OutOfMemory; }
      ghost var t, was := View(), lists;
      MakeNode(key, cidr, first.value, peer.value);
      r := PutPending(t, was, key, cidr, at, first.value, peer.value, second);
    }

    // -------------------------------------------------------------- removal

    /** Gives the slot of node n to r, telling the node that arrives there. */
    method PassSlot(n: Id, r: Option<Id>)
      requires n in nodes && SlotIn(View(), nodes[n].parent) && (r.Some? ==> r.value in nodes)
      modifies this`nodes, this`roots
      ensures var t := old(View());
              var moved := if r.Some? then t.nodes[r.value := t.nodes[r.value].(parent := t.nodes[n].parent)]
                else t.nodes;
              View() == SlotSet(t.(nodes := moved), t.nodes[n].parent, r)
    {
      var s := nodes[n].parent;
      if r.Some? { nodes := nodes[r.value := nodes[r.value].(parent := s)]; }
      SetSlot(s, r);
    }

    /** One splice: n's only child takes n's slot, and n is freed. */
    method SpliceOut(n: Id)
      requires Spliceable(View(), n)
      modifies this`nodes, this`roots
      ensures View() == Splice(old(View()), n)
    {
      PassSlot(n, OnlyKid(nodes[n]));
      nodes := nodes - {n};
    }

    /** The part of remove_node() that rewires the trie around a node without a peer. */
    method Unlink(ghost t: Trie, n: Id)
      requires TrieOk(t) && n in t.nodes && View() == SetPeer(t, n, None)
      modifies this`nodes, this`roots
      ensures View() == Removed(t, n)
    {
      if nodes[n].bit0.Some? && nodes[n].bit1.Some? { return; }
      var slot := nodes[n].parent;
      SetPeerOk(t, n, None);
      SpliceOk(View(), n);
      var freeParent := nodes[n].bit0.None? && nodes[n].bit1.None? && slot.ChildSlot? && nodes[slot.node].peer.None?;
      if freeParent {
        assert SlotOk(t, t.nodes[n].parent);
        ParentSpliceable(t, n);
      }
      SpliceOut(n);
      if freeParent { SpliceOut(slot.node); }
    }

    /** remove_node() */
    method RemoveNode(n: Id)
      requires Valid() && n in nodes && nodes[n].peer.Some? && nodes[n].cidr <= |nodes[n].bits|
      modifies this
      ensures Valid() && View() == Removed(old(View()), n)
      ensures lists == ListDel(old(lists), n, old(nodes[n].peer))
      ensures table == old(table) - {old(PrefixOf(nodes[n]))}
    {
      ghost var t := View();
      RemovedOk(t, table, n);
      ListsRemoved(nodes, Removed(t, n).nodes, lists, n);
      table := table - {PrefixOf(nodes[n])};
      lists := ListDel(lists, n, nodes[n].peer);
      nodes := nodes[n := nodes[n].(peer := None)];
      Unlink(t, n);
    }

    /** remove(): takes the prefix out of the table exactly when it belongs to this peer. */
    method Remove(key: seq<bool>, cidr: nat, peer: Peer) returns (r: Status)
      requires Valid() && (|key| == 32 || |key| == 128)
      modifies this
      ensures Valid()
      ensures r == if cidr > |key| then InvalidArgument else Ok
      ensures cidr <= |key| ==>
                var p := Prefix(|key|, key[..cidr]);
                table == if p in old(table) && old(table)[p] == peer then old(table) - {p} else old(table)
      ensures cidr > |key| ==> table == old(table)
    {
      if cidr > |key| { return InvalidArgument; }
      if |key| !in roots {
        BlockedIsPlaced(View(), key, cidr, None, None);
        return Ok;
      }
      var exact, at := NodePlacement(key, cidr);
      if !exact { return Ok; }
      var n := at.value;
      assert PrefixOf(nodes[n]) == Prefix(|key|, key[..cidr]);
      CarriedOnce(View(), n, PrefixOf(nodes[n]));
      if nodes[n].peer != Some(peer) { return Ok; }
      RemoveNode(n);
      return Ok;
    }

    /** Removes the first node on a peer's list. */
    method RemoveFirst(peer: Peer, n: Id)
      requires Valid() && ListOf(lists, peer) != [] && ListOf(lists, peer)[0] == n
      modifies this
      ensures Valid() && ListOf(lists, peer) == old(ListOf(lists, peer))[1..]
      ensures exists p :: p in old(table) && old(table)[p] == peer && table == old(table) - {p}
    {
      ListHead(peer, n);
      ghost var p := PrefixOf(nodes[n]);
      RemoveNode(n);
      assert p in old(table) && old(table)[p] == peer && table == old(table) - {p};
    }

    /** wg_allowedips_remove_by_peer(): takes out exactly the prefixes of this peer. */
    method RemoveByPeer(peer: Peer)
      requires Valid()
      modifies this
      ensures Valid() && ListOf(lists, peer) == []
      ensures table == map p | p in old(table) && old(table)[p] != peer :: old(table)[p]
    {
      var all := ListOf(lists, peer);
      var i := 0;
      while i < |all|
        invariant 0 <= i <= |all| && Valid() && ListOf(lists, peer) == all[i..]
        invariant OnlyLost(old(table), table, peer)
      {
        // list_for_each_entry_safe holds on to the next node, which stays: it has a peer
        assert all[i..][0] == all[i] && all[i..][1..] == all[i + 1..];
        RemoveFirst(peer, all[i]);
        i := i + 1;
      }
      NoneLeft(nodes, lists, table, peer);
      LostAre(old(table), table, peer);
    }

    /** The first node on a peer's list is in the trie, with this peer. */
    lemma ListHead(peer: Peer, n: Id)
      requires Valid() && ListOf(lists, peer) != [] && ListOf(lists, peer)[0] == n
      ensures n in nodes && nodes[n].peer == Some(peer) && nodes[n].cidr <= |nodes[n].bits|
      ensures PrefixOf(nodes[n]) in table && table[PrefixOf(nodes[n])] == peer
      ensures ListOf(ListDel(lists, n, Some(peer)), peer) == ListOf(lists, peer)[1..]
    {
      assert n in lists[peer];
      WithoutNoRepeat(ListOf(lists, peer), n);
    }

    // -------------------------------------------------------------- whole tries

    /** root_remove_peer_lists(): unlists every node of one trie, each exactly once. */
    method RemovePeerLists(root: Id, ghost width: nat)
      requires Linked(View()) && Root(View(), width) == Some(root) && Listed(nodes, lists) && AllNoRepeat(lists)
      modifies this`lists
      ensures AllNoRepeat(lists)
      ensures forall p: Peer, n: Id :: OnList(lists, p, n) <==>
                OnList(old(lists), p, n) && !Walk.Member(View(), width, n)
    {
      ghost var t, done := View(), {};
      var stack := new Id[MAX_DEPTH];
      stack[0] := root;
      var len := 1;
      Walk.WalkStarts(t, width, root);
      assert stack[..len] == [root];
      while len > 0
        invariant 0 <= len <= stack.Length && Walk.Walking(t, width, stack[..len], done)
        invariant AllNoRepeat(lists) && Unlists(old(lists), lists, done)
        decreases t.nodes.Keys - done
      {
        len := len - 1;
        var n := stack[len];
        assert stack[..len + 1] == stack[..len] + [n];
        Walk.WalkRound(t, width, stack[..len], n, done);
        len := PushKids(stack, len, nodes[n]);
        UnlistsOne(t.nodes, old(lists), lists, done, n);
        if nodes[n].peer.Some? { lists := ListDel(lists, n, nodes[n].peer); }
        done := done + {n};
      }
      assert stack[..len] == [];
      forall n | Walk.Member(t, width, n) ensures n in done { Walk.WalkEnds(t, width, done, n); }
    }

    /** root_free_rcu(): frees every node of one trie, each exactly once. */
    method FreeTrie(root: Id, ghost width: nat)
      requires Linked(View()) && Root(View(), width) == Some(root)
      modifies this`nodes
      ensures nodes == map n | n in old(nodes) && |old(nodes)[n].bits| != width :: old(nodes)[n]
    {
      ghost var t, done := View(), {};
      var stack := new Id[MAX_DEPTH];
      stack[0] := root;
      var len := 1;
      Walk.WalkStarts(t, width, root);
      assert stack[..len] == [root];
      while len > 0
        invariant 0 <= len <= stack.Length && Walk.Walking(t, width, stack[..len], done)
        invariant nodes == t.nodes - done
        decreases t.nodes.Keys - done
      {
        len := len - 1;
        var n := stack[len];
        assert stack[..len + 1] == stack[..len] + [n];
        Walk.WalkRound(t, width, stack[..len], n, done);
        len := PushKids(stack, len, nodes[n]);
        MinusOne(t.nodes, done, n);
        nodes := nodes - {n};
        done := done + {n};
      }
      assert stack[..len] == [];
      FreedAre(t, width, done);
    }

    /** Takes one whole trie out: unlisted, its root pointer cleared, its nodes freed. */
    method FreeRoot(width: nat)
      requires Linked(View()) && Listed(nodes, lists) && AllNoRepeat(lists)
      modifies this`nodes, this`roots, this`lists
      ensures nodes == map n | n in old(nodes) && |old(nodes)[n].bits| != width :: old(nodes)[n]
      ensures roots == old(roots) - {width} && AllNoRepeat(lists)
      ensures Listed(nodes, lists)
    {
      ghost var t := View();
      NoRootNoNodes(t, width);
      if width in roots {
        var root := roots[width];
        RemovePeerLists(root, width);
        FreeTrie(root, width);
        roots := roots - {width};
        ListedRest(t, width, old(lists), nodes, lists);
      } else {
        assert forall n :: n in nodes ==> |nodes[n].bits| != width;
      }
    }

    /** wg_allowedips_free(): nothing is left in the tries, the table or the lists. */
    method Free()
      requires Valid()
      modifies this
      ensures Valid() && table == map[] && nodes == map[] && roots.Keys !! {32, 128}
      ensures forall p: Peer :: ListOf(lists, p) == []
    {
      ghost var t := View();
      FreeRoot(32);
      LinkedRest(t, 32);
      assert View() == Rest(t, 32);
      FreeRoot(128);
      LinkedRest(Rest(t, 32), 128);
      NothingRests(t);
      table := map[];
      NoNodesNoLists(nodes, lists);
    }
  }

  lemma HeadIn(s: seq<Id>)
    ensures s == [] || s[0] in s
  {
  }

  lemma NoNodesNoLists(nodes: map<Id, Node>, lists: map<Peer, seq<Id>>)
    requires Listed(nodes, lists) && nodes == map[]
    ensures forall p: Peer :: ListOf(lists, p) == []
  {
    forall p: Peer
      ensures ListOf(lists, p) == []
    {
      assert forall n :: p in lists && n in lists[p] ==> n in nodes;
      HeadIn(ListOf(lists, p));
    }
  }

  /** A linked trie without one of its families. */
  ghost function Rest(t: Trie, width: nat): Trie {
    Trie(map n | n in t.nodes && |t.nodes[n].bits| != width :: t.nodes[n], t.roots - {width})
  }

  lemma LinkedRest(t: Trie, width: nat)
    requires Linked(t)
    ensures Linked(Rest(t, width))
  {
    var t' := Rest(t, width);
    forall s | SlotIn(t', s)
      ensures SlotOk(t', s)
    {
      assert SlotOk(t, s);
    }
    forall n | n in t'.nodes
      ensures HeldOk(t', n)
    {
      assert HeldOk(t, n) && SlotOk(t, t.nodes[n].parent);
    }
  }

  lemma MinusOne(nodes: map<Id, Node>, done: set<Id>, n: Id)
    ensures nodes - done - {n} == nodes - (done + {n})
  {
  }

  /** When the stack is empty, exactly the nodes of the family have been freed. */
  lemma FreedAre(t: Trie, width: nat, done: set<Id>)
    requires Linked(t) && Walk.Walking(t, width, [], done)
    ensures t.nodes - done == map n | n in t.nodes && |t.nodes[n].bits| != width :: t.nodes[n]
  {
    forall n | n in t.nodes
      ensures n in done <==> |t.nodes[n].bits| == width
    {
      if |t.nodes[n].bits| == width { Walk.WalkEnds(t, width, done, n); }
    }
  }

  /** There are only two families. */
  lemma NothingRests(t: Trie)
    requires Linked(t)
    ensures Rest(Rest(t, 32), 128).nodes == map[]
  {
    forall n | n in t.nodes
      ensures |t.nodes[n].bits| == 32 || |t.nodes[n].bits| == 128
    {
      assert HeldOk(t, n);
    }
  }

  /** Every node of a family hangs from that family's root. */
  lemma NoRootNoNodes(t: Trie, width: nat)
    requires Linked(t)
    ensures width !in t.roots ==> forall n :: n in t.nodes ==> |t.nodes[n].bits| != width
  {
    if width !in t.roots {
      forall n | n in t.nodes ensures |t.nodes[n].bits| != width { HasRoot(t, n); }
    }
  }

  lemma {:induction false} HasRoot(t: Trie, n: Id)
    requires Linked(t) && n in t.nodes
    ensures |t.nodes[n].bits| in t.roots
    decreases t.nodes[n].cidr
  {
    assert HeldOk(t, n) && SlotOk(t, t.nodes[n].parent);
    if t.nodes[n].parent.ChildSlot? { HasRoot(t, t.nodes[n].parent.node); }
  }

  lemma ListedRest(t: Trie, width: nat, was: map<Peer, seq<Id>>, nodes: map<Id, Node>, lists: map<Peer, seq<Id>>)
    requires Listed(t.nodes, was) && nodes == Rest(t, width).nodes
    requires forall p: Peer, n: Id :: OnList(lists, p, n) <==> OnList(was, p, n) && !Walk.Member(t, width, n)
    ensures Listed(nodes, lists)
  {
    forall p, n | p in lists && n in lists[p]
      ensures n in nodes && nodes[n].peer == Some(p)
    {
      assert OnList(lists, p, n) && OnList(was, p, n);
    }
    forall n | n in nodes && nodes[n].peer.Some?
      ensures n in ListOf(lists, nodes[n].peer.value)
    {
      assert OnList(was, nodes[n].peer.value, n) && OnList(lists, nodes[n].peer.value, n);
    }
  }

  /** The lists have lost exactly the nodes in done. */
  ghost predicate Unlists(was: map<Peer, seq<Id>>, lists: map<Peer, seq<Id>>, done: set<Id>) {
    forall p: Peer, n: Id :: OnList(lists, p, n) <==> OnList(was, p, n) && n !in done
  }

  lemma UnlistsOne(nodes: map<Id, Node>, was: map<Peer, seq<Id>>, lists: map<Peer, seq<Id>>, done: set<Id>, n: Id)
    requires Listed(nodes, was) && AllNoRepeat(lists) && Unlists(was, lists, done) && n in nodes
    ensures var lists' := ListDel(lists, n, nodes[n].peer);
            AllNoRepeat(lists') && Unlists(was, lists', done + {n})
  {
    DelNoRepeat(lists, n, nodes[n].peer);
    var lists' := ListDel(lists, n, nodes[n].peer);
    forall p: Peer, m: Id
      ensures OnList(lists', p, m) <==> OnList(was, p, m) && m !in done + {n}
    {
      assert OnList(lists, p, m) <==> OnList(was, p, m) && m !in done;
      assert n in ListOf(was, p) ==> nodes[n].peer == Some(p);
    }
  }

  /** push_rcu() of both children: the array never overflows when the result fits. */
  method PushKids(stack: array<Id>, len: nat, n: Node) returns (len': nat)
    requires len + |Walk.Kids(n)| <= stack.Length
    modifies stack
    ensures len' == len + |Walk.Kids(n)| && stack[..len'] == old(stack[..len]) + Walk.Kids(n)
  {
    len' := len;
    if n.bit0.Some? {
      stack[len'] := n.bit0.value;
      len' := len' + 1;
    }
    if n.bit1.Some? {
      stack[len'] := n.bit1.value;
      len' := len' + 1;
    }
  }

  /** The table has lost entries of this peer only. */
  ghost predicate OnlyLost(was: map<Prefix, Peer>, table: map<Prefix, Peer>, peer: Peer) {
    && (forall p :: p in table ==> p in was && table[p] == was[p])
    && (forall p :: p in was && was[p] != peer ==> p in table)
  }

  lemma LostAre(was: map<Prefix, Peer>, table: map<Prefix, Peer>, peer: Peer)
    requires OnlyLost(was, table, peer) && forall p :: p in table ==> table[p] != peer
    ensures table == map p | p in was && was[p] != peer :: was[p]
  {
  }

  /** A peer with an empty list has no entry in the table. */
  lemma NoneLeft(nodes: map<Id, Node>, lists: map<Peer, seq<Id>>, table: map<Prefix, Peer>, peer: Peer)
    requires Agrees(nodes, table) && Listed(nodes, lists) && ListOf(lists, peer) == []
    ensures forall p :: p in table ==> table[p] != peer
  {
    forall p | p in table
      ensures table[p] != peer
    {
      var n :| Carries(nodes, n, p);
      assert n in ListOf(lists, table[p]);
    }
  }

  lemma {:induction false} UndoAppend(s: seq<Id>, n: Id)
    requires n !in s
    ensures Without(s + [n], n) == s
  {
    if s == [] {
      assert s + [n] == [n];
    } else {
      assert (s + [n])[1..] == s[1..] + [n];
      UndoAppend(s[1..], n);
    }
  }

  lemma UndoListed(lists: map<Peer, seq<Id>>, n: Id, peer: Peer)
    requires n !in ListOf(lists, peer)
    ensures forall p :: ListOf(ListDel(ListAddTail(lists, n, peer), n, Some(peer)), p) == ListOf(lists, p)
  {
    UndoAppend(ListOf(lists, peer), n);
  }

  /** Only what the lists hold matters, not whether an empty list is written down. */
  lemma ListsSame(nodes: map<Id, Node>, lists: map<Peer, seq<Id>>, lists': map<Peer, seq<Id>>)
    requires ListsOk(nodes, lists) && forall p :: ListOf(lists', p) == ListOf(lists, p)
    ensures ListsOk(nodes, lists')
  {
    forall p, n | p in lists' && n in lists'[p]
      ensures n in nodes && nodes[n].peer == Some(p)
    {
      assert n in ListOf(lists', p);
    }
    forall p | p in lists'
      ensures NoRepeat(lists'[p])
    {
      assert lists'[p] == ListOf(lists', p) == ListOf(lists, p);
    }
  }
}
