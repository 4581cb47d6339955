/**
 One io-wq's pending list and its hash_tail table.  Items with the same hash are kept in one
 contiguous run that ends at hash_tail[hash], so that a scan for runnable work can pass over a
 whole run in one step and a taker can cut a whole run out of the list.
 */
module IoWqList {
  import opened Maybe

  /** struct io_wq_work: hash is present exactly when IO_WQ_WORK_HASHED is set. */
  datatype Item = Item(id: nat, hash: Option<nat>)

  /** __io_get_work_hash() of the flags, which gives 0 for an item that is not hashed. */
  function HashValue(x: Item): nat { if x.hash.Some? then x.hash.value else 0 }

  /** Where an item is, or the length of the list. */
  function Index(list: seq<Item>, x: Item): (i: nat)
    ensures i <= |list| && (i < |list| ==> list[i] == x) && (x in list ==> i < |list|)
  {
    if list == [] || list[0] == x then 0 else 1 + Index(list[1..], x)
  }

  predicate Differ(list: seq<Item>, i: nat, j: nat) { i < j < |list| ==> list[i] != list[j] }

  /** No item is on the list twice. */
  predicate Once(list: seq<Item>) { forall i: nat, j: nat :: i < j < |list| ==> Differ(list, i, j) }

  lemma IndexIs(list: seq<Item>, i: nat)
    requires Once(list) && i < |list|
    ensures Index(list, list[i]) == i
  {
    var m := Index(list, list[i]);
    assert Differ(list, m, i) && Differ(list, i, m);
  }

  /** Of two positions with the same item there is only one. */
  lemma OnceAt(list: seq<Item>, i: nat, j: nat)
    requires Once(list) && i < |list| && j < |list| && i != j
    ensures list[i] != list[j]
  {
    assert Differ(list, i, j) && Differ(list, j, i);
  }

  // ---------------------------------------------------------------- the invariant

  /** A hashed item is its hash's tail, or the next item has the same hash. */
  predicate LeadsOn(list: seq<Item>, tail: map<nat, Item>, i: nat)
    requires i < |list|
  {
    list[i].hash.Some? ==>
      && list[i].hash.value in tail
      && (list[i] == tail[list[i].hash.value] || (i + 1 < |list| && list[i + 1].hash == list[i].hash))
  }

  predicate TailsOk(list: seq<Item>, tail: map<nat, Item>) {
    && (forall h :: h in tail ==> tail[h] in list && tail[h].hash == Some(h))
    && (forall i :: 0 <= i < |list| ==> LeadsOn(list, tail, i))
  }

  predicate Ok(list: seq<Item>, tail: map<nat, Item>) { Once(list) && TailsOk(list, tail) }

  /** All items of a hash from i on lie together, up to the tail. */
  lemma {:induction false} RunToTail(list: seq<Item>, tail: map<nat, Item>, i: nat)
    requires Ok(list, tail) && i < |list| && list[i].hash.Some?
    ensures list[i].hash.value in tail
    ensures var k := Index(list, tail[list[i].hash.value]);
            i <= k < |list| && forall j :: i <= j <= k ==> list[j].hash == list[i].hash
    decreases |list| - i
  {
    assert LeadsOn(list, tail, i);
    var t := tail[list[i].hash.value];
    if list[i] == t {
      IndexIs(list, i);
    } else {
      RunToTail(list, tail, i + 1);
    }
  }

  /** Items of one hash form one run: everything between two of them has that hash. */
  lemma Contiguous(list: seq<Item>, tail: map<nat, Item>, i: nat, j: nat, k: nat)
    requires Ok(list, tail) && i <= j <= k < |list| && list[i].hash.Some? && list[i].hash == list[k].hash
    ensures list[j].hash == list[i].hash
  {
    RunToTail(list, tail, i);
    RunToTail(list, tail, k);
  }

  // ---------------------------------------------------------------- insertion

  /** io_wq_insert_work(): behind the tail of its hash, or at the end; behind a tail that left the list, nowhere. */
  function Inserted(list: seq<Item>, tail: map<nat, Item>, x: Item): seq<Item> {
    if x.hash.None? || x.hash.value !in tail then list + [x]
    else
      var k := Index(list, tail[x.hash.value]);
      if k == |list| then list else list[..k + 1] + [x] + list[k + 1..]
  }

  function InsertedTail(tail: map<nat, Item>, x: Item): map<nat, Item> {
    if x.hash.None? then tail else tail[x.hash.value := x]
  }

  lemma OnceBehind(list: seq<Item>, x: Item, k: nat)
    requires Once(list) && x !in list && k < |list|
    ensures Once(list[..k + 1] + [x] + list[k + 1..])
  {
    var list' := list[..k + 1] + [x] + list[k + 1..];
    forall i: nat, j: nat | i < j < |list'|
      ensures Differ(list', i, j)
    {
      var m, n := if i <= k then i else i - 1, if j <= k then j else j - 1;
      assert i != k + 1 ==> list'[i] == list[m];
      assert j != k + 1 ==> list'[j] == list[n];
      if i != k + 1 && j != k + 1 { OnceAt(list, m, n); }
    }
  }

  lemma InsertBehind(list: seq<Item>, tail: map<nat, Item>, x: Item, k: nat)
    requires Ok(list, tail) && x !in list && k < |list| && x.hash.Some? && x.hash.value in tail
    requires list[k] == tail[x.hash.value]
    ensures Ok(list[..k + 1] + [x] + list[k + 1..], InsertedTail(tail, x))
  {
    var list', tail' := list[..k + 1] + [x] + list[k + 1..], InsertedTail(tail, x);
    OnceBehind(list, x, k);
    forall i | 0 <= i < |list'|
      ensures LeadsOn(list', tail', i)
    {
      if i <= k {
        assert list'[i] == list[i] && LeadsOn(list, tail, i);
        if i < k { OnceAt(list, i, k); }
      } else if i > k + 1 {
        assert list'[i] == list[i - 1] && LeadsOn(list, tail, i - 1);
        OnceAt(list, i - 1, k);
      }
    }
    forall h | h in tail'
      ensures tail'[h] in list' && tail'[h].hash == Some(h)
    {
      if h != x.hash.value { assert tail[h] in list && list == list[..k + 1] + list[k + 1..]; }
      assert list'[k + 1] == x;
    }
  }

  lemma InsertAtEnd(list: seq<Item>, tail: map<nat, Item>, x: Item)
    requires Ok(list, tail) && x !in list && (x.hash.Some? ==> x.hash.value !in tail)
    ensures Ok(list + [x], InsertedTail(tail, x))
  {
    var list', tail' := list + [x], InsertedTail(tail, x);
    forall i | 0 <= i < |list'|
      ensures LeadsOn(list', tail', i)
    {
      if i < |list| { assert LeadsOn(list, tail, i); }
    }
    assert list'[|list|] == x;
    forall i: nat, j: nat | i < j < |list'|
      ensures Differ(list', i, j)
    {
      if j < |list| { OnceAt(list, i, j); }
    }
  }

  /** Every insertion of a new item keeps the runs. */
  lemma InsertOk(list: seq<Item>, tail: map<nat, Item>, x: Item)
    requires Ok(list, tail) && x !in list
    ensures Ok(Inserted(list, tail, x), InsertedTail(tail, x))
    ensures multiset(Inserted(list, tail, x)) == multiset(list) + multiset{x}
  {
    if x.hash.None? || x.hash.value !in tail {
      InsertAtEnd(list, tail, x);
    } else {
      var k := Index(list, tail[x.hash.value]);
      InsertBehind(list, tail, x, k);
      assert list == list[..k + 1] + list[k + 1..];
    }
  }

  // ---------------------------------------------------------------- taking

  predicate Runnable(x: Item, busy: set<nat>) { x.hash.None? || x.hash.value !in busy }

  /** The plain scan: the first item, from i on, that may run. */
  function FirstRunnable(list: seq<Item>, busy: set<nat>, i: nat): (r: nat)
    requires i <= |list|
    ensures i <= r <= |list| && (r < |list| ==> Runnable(list[r], busy))
    ensures forall j :: i <= j < r ==> !Runnable(list[j], busy)
    decreases |list| - i
  {
    if i == |list| || Runnable(list[i], busy) then i else FirstRunnable(list, busy, i + 1)
  }

  lemma {:induction false} SkipScan(list: seq<Item>, busy: set<nat>, i: nat, k: nat)
    requires i <= k <= |list| && forall j :: i <= j < k ==> !Runnable(list[j], busy)
    ensures FirstRunnable(list, busy, i) == FirstRunnable(list, busy, k)
    decreases k - i
  {
    if i < k { SkipScan(list, busy, i + 1, k); }
  }

  /** Index i is not inside a run. */
  predicate RunStart(list: seq<Item>, tail: map<nat, Item>, i: nat) {
    i <= |list| && (i > 0 && list[i - 1].hash.Some? ==>
      list[i - 1].hash.value in tail && list[i - 1] == tail[list[i - 1].hash.value])
  }

  /** wq_list_cut(): the list without the items from i to k. */
  function Without(list: seq<Item>, i: nat, k: nat): seq<Item>
    requires i <= k < |list|
  {
    list[..i] + list[k + 1..]
  }

  lemma WithoutOnce(list: seq<Item>, i: nat, k: nat)
    requires Once(list) && i <= k < |list|
    ensures Once(Without(list, i, k))
    ensures forall x :: x in Without(list, i, k) ==> x in list
    ensures forall j :: 0 <= j < |list| && !(i <= j <= k) ==> list[j] in Without(list, i, k)
  {
    var w := Without(list, i, k);
    forall a: nat, b: nat | a < b < |w|
      ensures Differ(w, a, b)
    {
      var m, n := if a < i then a else a - i + k + 1, if b < i then b else b - i + k + 1;
      assert w[a] == list[m] && w[b] == list[n];
      OnceAt(list, m, n);
    }
    forall j | 0 <= j < |list| && !(i <= j <= k)
      ensures list[j] in w
    {
      assert list[j] == w[if j < i then j else j - k - 1 + i];
    }
  }

  /** From a run start to the tail lies everything of that hash. */
  lemma WholeRun(list: seq<Item>, tail: map<nat, Item>, i: nat, j: nat)
    requires Ok(list, tail) && i < |list| && RunStart(list, tail, i) && list[i].hash.Some?
    requires j < |list| && list[j].hash == list[i].hash
    ensures list[i].hash.value in tail && i <= j <= Index(list, tail[list[i].hash.value])
  {
    RunToTail(list, tail, i);
    RunToTail(list, tail, j);
    if i > 0 { IndexIs(list, i - 1); }
  }

  lemma CutLeads(list: seq<Item>, tail: map<nat, Item>, i: nat, k: nat, h: nat, j: nat)
    requires Ok(list, tail) && i <= k < |list| && RunStart(list, tail, i) && h in tail
    requires forall m :: 0 <= m < |list| && list[m].hash == Some(h) ==> i <= m <= k
    requires forall m :: i <= m <= k ==> list[m].hash == Some(h)
    requires j < |Without(list, i, k)|
    ensures LeadsOn(Without(list, i, k), tail - {h}, j) && Without(list, i, k)[j].hash != Some(h)
  {
    var list' := Without(list, i, k);
    var m := if j < i then j else j - i + k + 1;
    assert list'[j] == list[m] && LeadsOn(list, tail, m);
    if m + 1 < |list| && m + 1 != i { assert list[m + 1] == list'[j + 1]; }
  }

  lemma CutTails(list: seq<Item>, tail: map<nat, Item>, i: nat, k: nat, h: nat, g: nat)
    requires Ok(list, tail) && i <= k < |list| && g in tail && g != h
    requires forall m :: i <= m <= k ==> list[m].hash == Some(h)
    ensures tail[g] in Without(list, i, k) && tail[g].hash == Some(g)
  {
    WithoutOnce(list, i, k);
    var m := Index(list, tail[g]);
    assert list[m].hash == Some(g);
  }

  /** Cutting a whole run out keeps the other runs. */
  lemma CutOk(list: seq<Item>, tail: map<nat, Item>, i: nat)
    requires Ok(list, tail) && i < |list| && RunStart(list, tail, i) && list[i].hash.Some?
    ensures list[i].hash.value in tail
    ensures var k := Index(list, tail[list[i].hash.value]);
            && i <= k < |list| && Ok(Without(list, i, k), tail - {list[i].hash.value})
            && (forall j :: 0 <= j < |Without(list, i, k)| ==> Without(list, i, k)[j].hash != list[i].hash)
            && (forall j :: i <= j <= k ==> list[j].hash == list[i].hash)
  {
    RunToTail(list, tail, i);
    var h := list[i].hash.value;
    var k := Index(list, tail[h]);
    WithoutOnce(list, i, k);
    forall m | 0 <= m < |list| && list[m].hash == Some(h) ensures i <= m <= k { WholeRun(list, tail, i, m); }
    forall j | 0 <= j < |Without(list, i, k)|
      ensures LeadsOn(Without(list, i, k), tail - {h}, j) && Without(list, i, k)[j].hash != Some(h)
    {
      CutLeads(list, tail, i, k, h, j);
    }
    forall g | g in tail - {h}
      ensures tail[g] in Without(list, i, k) && tail[g].hash == Some(g)
    {
      CutTails(list, tail, i, k, h, g);
    }
  }

  /** A scan that meets a run of a busy hash may go on behind the run. */
  lemma PassRun(list: seq<Item>, tail: map<nat, Item>, busy: set<nat>, i: nat)
    requires Ok(list, tail) && i < |list| && list[i].hash.Some? && list[i].hash.value in busy
    ensures list[i].hash.value in tail
    ensures var k := Index(list, tail[list[i].hash.value]);
            && i <= k < |list| && RunStart(list, tail, k + 1)
            && FirstRunnable(list, busy, i) == FirstRunnable(list, busy, k + 1)
  {
    RunToTail(list, tail, i);
    SkipScan(list, busy, i, Index(list, tail[list[i].hash.value]) + 1);
  }

  /** Taking an item that is not hashed out of the list. */
  lemma TakeOneOk(list: seq<Item>, tail: map<nat, Item>, i: nat)
    requires Ok(list, tail) && i < |list| && list[i].hash.None?
    ensures Ok(Without(list, i, i), tail)
  {
    var list' := Without(list, i, i);
    WithoutOnce(list, i, i);
    forall g | g in tail
      ensures tail[g] in list' && tail[g].hash == Some(g)
    {
      var m := Index(list, tail[g]);
      assert list[m].hash == Some(g);
    }
    forall j | 0 <= j < |list'|
      ensures LeadsOn(list', tail, j)
    {
      var m := if j < i then j else j + 1;
      assert list'[j] == list[m] && LeadsOn(list, tail, m);
      if m + 1 < |list| && m + 1 != i { assert list[m + 1] == list'[j + 1]; }
    }
  }

  // ---------------------------------------------------------------- cancelling

  /** io_wq_remove_pending(): the tail moves to the predecessor if that has the same hash value. */
  function RemovedTail(list: seq<Item>, tail: map<nat, Item>, i: nat): map<nat, Item>
    requires i < |list|
  {
    var x := list[i];
    if x.hash.None? || x.hash.value !in tail || tail[x.hash.value] != x then tail
    else if i > 0 && HashValue(list[i - 1]) == x.hash.value then tail[x.hash.value := list[i - 1]]
    else tail - {x.hash.value}
  }

  /**
   The predecessor is taken for an item of hash 0 although it is not hashed: only hash values
   are compared, and an item that is not hashed has hash value 0.
   */
  predicate MistakenTail(list: seq<Item>, tail: map<nat, Item>, i: nat)
    requires i < |list|
  {
    list[i].hash == Some(0) && 0 in tail && tail[0] == list[i] && i > 0 && list[i - 1].hash.None?
  }

  lemma RemoveKeeps(list: seq<Item>, tail: map<nat, Item>, i: nat)
    requires Ok(list, tail) && i < |list| && !MistakenTail(list, tail, i)
    ensures Ok(Without(list, i, i), RemovedTail(list, tail, i))
  {
    var list', tail' := Without(list, i, i), RemovedTail(list, tail, i);
    WithoutOnce(list, i, i);
    forall g | g in tail'
      ensures tail'[g] in list' && tail'[g].hash == Some(g)
    {
      if g in tail && tail'[g] == tail[g] {
        var m := Index(list, tail[g]);
        assert m == i ==> list[i] == tail[g];
      }
    }
    forall j | 0 <= j < |list'|
      ensures LeadsOn(list', tail', j)
    {
      RemoveLeads(list, tail, i, j);
    }
  }

  lemma RemoveLeads(list: seq<Item>, tail: map<nat, Item>, i: nat, j: nat)
    requires Ok(list, tail) && i < |list| && !MistakenTail(list, tail, i) && j < |Without(list, i, i)|
    ensures LeadsOn(Without(list, i, i), RemovedTail(list, tail, i), j)
  {
    var list' := Without(list, i, i);
    var m := if j < i then j else j + 1;
    assert list'[j] == list[m] && LeadsOn(list, tail, m) && LeadsOn(list, tail, i);
    if m + 1 < |list| && m + 1 != i { assert list[m + 1] == list'[j + 1]; }
    if m + 1 == i && i + 1 < |list| { assert list[i + 1] == list'[j + 1]; }
    if list[m].hash.Some? && list[m].hash == list[i].hash {
      RunToTail(list, tail, m);
      IndexIs(list, m);
      IndexIs(list, i);
      if m < i { Contiguous(list, tail, m, i - 1, i); }
    }
  }

  /** The cancel step keeps the runs exactly when it does not mistake its predecessor. */
  lemma RemoveKeepsIff(list: seq<Item>, tail: map<nat, Item>, i: nat)
    requires Ok(list, tail) && i < |list|
    ensures Ok(Without(list, i, i), RemovedTail(list, tail, i)) <==> !MistakenTail(list, tail, i)
  {
    if MistakenTail(list, tail, i) {
      assert RemovedTail(list, tail, i)[0] == list[i - 1];
    } else {
      RemoveKeeps(list, tail, i);
    }
  }

  // ---------------------------------------------------------------- in place

  class Queue {
    var list: seq<Item>
    var tail: map<nat, Item>

    constructor ()
      ensures list == [] && tail == map[] && Ok(list, tail)
    {
      list, tail := [], map[];
    }

    /** io_wq_insert_work() */
    method InsertWork(x: Item)
      requires Ok(list, tail) && x !in list
      modifies this
      ensures list == Inserted(old(list), old(tail), x) && tail == InsertedTail(old(tail), x)
      ensures Ok(list, tail) && multiset(list) == multiset(old(list)) + multiset{x}
    {
      InsertOk(list, tail, x);
      if x.hash.None? {
        list := list + [x];
        return;
      }
      var h := x.hash.value;
      if h !in tail {
        tail := tail[h := x];
        list := list + [x];
        return;
      }
      var k := Index(list, tail[h]);
      tail := tail[h := x];
      list := list[..k + 1] + [x] + list[k + 1..];
    }

    /**
     The loop of io_get_next_work() over the hash map as it finds it: by skipping whole runs it
     stops at exactly the item at which a scan testing every item would stop.
     */
    method Scan(busy: set<nat>) returns (i: nat, stalled: Option<nat>)
      requires Ok(list, tail)
      ensures i == FirstRunnable(list, busy, 0) && RunStart(list, tail, i)
      ensures stalled.Some? ==> stalled.value in busy
      ensures i == |list| && list != [] ==> stalled.Some?
    {
      i, stalled := 0, None;
      while i < |list|
        invariant 0 <= i <= |list| && RunStart(list, tail, i)
        invariant FirstRunnable(list, busy, 0) == FirstRunnable(list, busy, i)
        invariant (stalled.Some? ==> stalled.value in busy) && (i > 0 ==> stalled.Some?)
      {
        var x := list[i];
        if x.hash.None? || x.hash.value !in busy { break; }
        if stalled.None? { stalled := x.hash; }
        PassRun(list, tail, busy, i);
        i := Index(list, tail[x.hash.value]) + 1;
      }
    }

    /** wq_list_del() of an item that is not hashed */
    method TakeOne(i: nat) returns (x: Item)
      requires Ok(list, tail) && i < |list| && list[i].hash.None?
      modifies this`list
      ensures Ok(list, tail) && x == old(list)[i] && list == Without(old(list), i, i)
    {
      TakeOneOk(list, tail, i);
      x := list[i];
      list := Without(list, i, i);
    }

    /** wq_list_cut() of the run that starts at i; nothing of its hash stays behind. */
    method TakeRun(i: nat) returns (run: seq<Item>)
      requires Ok(list, tail) && i < |list| && list[i].hash.Some? && RunStart(list, tail, i)
      modifies this
      ensures Ok(list, tail) && i + |run| <= |old(list)| && run != [] && run == old(list)[i..i + |run|]
      ensures list == Without(old(list), i, i + |run| - 1) && tail == old(tail) - {run[0].hash.value}
      ensures forall j :: 0 <= j < |list| ==> list[j].hash != run[0].hash
    {
      CutOk(list, tail, i);
      var h := list[i].hash.value;
      var k := Index(list, tail[h]);
      run := list[i..k + 1];
      tail := tail - {h};
      list := Without(list, i, k);
    }

    /** io_get_next_work() */
    method GetNextWork(busy: set<nat>) returns (taken: seq<Item>, busy': set<nat>)
      requires Ok(list, tail)
      modifies this
      ensures Ok(list, tail)
      ensures var i := FirstRunnable(old(list), busy, 0);
              if i == |old(list)| then taken == [] && list == old(list) && busy' == busy
              else
                && taken != [] && i + |taken| <= |old(list)| && taken == old(list)[i..i + |taken|]
                && list == Without(old(list), i, i + |taken| - 1)
                && busy' == if old(list)[i].hash.None? then busy else busy + {old(list)[i].hash.value}
    {
      var i, stalled := Scan(busy);
      if i == |list| { return [], busy; }
      if list[i].hash.None? {
        var x := TakeOne(i);
        return [x], busy;
      }
      taken := TakeRun(i);
      busy' := busy + {taken[0].hash.value};
    }

    /** io_wq_remove_pending() of the item at index i */
    method RemovePending(i: nat)
      requires Ok(list, tail) && i < |list|
      modifies this
      ensures list == Without(old(list), i, i) && tail == RemovedTail(old(list), old(tail), i)
      ensures Ok(list, tail) <==> !MistakenTail(old(list), old(tail), i)
    {
      RemoveKeepsIff(list, tail, i);
      var x := list[i];
      if x.hash.Some? && x.hash.value in tail && tail[x.hash.value] == x {
        if i > 0 && HashValue(list[i - 1]) == x.hash.value {
          tail := tail[x.hash.value := list[i - 1]];
        } else {
          tail := tail - {x.hash.value};
        }
      }
      list := list[..i] + list[i + 1..];
    }
  }
}
