/**
 The rate limiter's hash table in place: chained buckets of entries, searched and collected in
 loops.  An entry is found in one step and updated in another, so that it may be updated after
 it was unlinked; TokenSource takes the steps of one source together.
 */
module RateTable {
  import opened TokenBucket

  /** What an entry is found by: the address, or the upper half of an IPv6 address, and the namespace. */
  datatype Source = Source(v6: bool, ip: nat, net: nat)

  /** struct ratelimiter_entry */
  class Rec {
    const source: Source
    var entry: Entry

    constructor (source: Source, entry: Entry)
      ensures this.source == source && this.entry == entry
    {
      this.source, this.entry := source, entry;
    }

    /** What wg_ratelimiter_allow() does under the lock of an entry it found, linked or not by then. */
    method Update(now: nat) returns (ok: bool)
      modifies this
      ensures (entry, ok) == Hit(old(entry), now)
    {
      var tokens := Tokens(entry, now);
      ok := tokens >= PACKET_COST;
      entry := Entry(now, if ok then tokens - PACKET_COST else tokens);
    }
  }

  /** The entries of one source in a chain, newest first. */
  function Of(chain: seq<Rec>, src: Source): (r: seq<Rec>)
    ensures forall x :: x in r ==> x in chain && x.source == src
  {
    if chain == [] then [] else (if chain[0].source == src then [chain[0]] else []) + Of(chain[1..], src)
  }

  /** The chain after the collector has passed. */
  function Collected(chain: seq<Rec>, began: nat): (r: seq<Rec>)
    reads chain
    ensures forall x :: x in r ==> x in chain && !Expired(x.entry, began)
  {
    if chain == [] then []
    else (if Expired(chain[0].entry, began) then [] else [chain[0]]) + Collected(chain[1..], began)
  }

  lemma {:induction false} OfJoin(a: seq<Rec>, b: seq<Rec>, src: Source)
    ensures Of(a + b, src) == Of(a, src) + Of(b, src)
  {
    if a == [] {
      assert a + b == b;
    } else {
      assert (a + b)[1..] == a[1..] + b;
      OfJoin(a[1..], b, src);
    }
  }

  lemma One(x: Rec, src: Source)
    ensures Of([x], src) == if x.source == src then [x] else []
  {
    assert [x][1..] == [];
  }

  lemma {:induction false} CollectedJoin(a: seq<Rec>, b: seq<Rec>, began: nat)
    ensures Collected(a + b, began) == Collected(a, began) + Collected(b, began)
  {
    if a == [] {
      assert a + b == b;
    } else {
      assert (a + b)[1..] == a[1..] + b;
      CollectedJoin(a[1..], b, began);
    }
  }

  /** The collector treats the entries of a source as if they were alone. */
  lemma {:induction false} OfCollected(chain: seq<Rec>, began: nat, src: Source)
    ensures Of(Collected(chain, began), src) == Collected(Of(chain, src), began)
  {
    if chain == [] {
    } else {
      var rest := Of(chain[1..], src);
      var first := if Expired(chain[0].entry, began) then [] else [chain[0]];
      OfCollected(chain[1..], began, src);
      OfJoin(first, Collected(chain[1..], began), src);
      One(chain[0], src);
      CollectedJoin(if chain[0].source == src then [chain[0]] else [], rest, began);
      assert [chain[0]][1..] == [];
    }
  }

  function Count(buckets: seq<seq<Rec>>): nat { if buckets == [] then 0 else |buckets[0]| + Count(buckets[1..]) }

  lemma {:induction false} CountUpdate(buckets: seq<seq<Rec>>, b: nat, chain: seq<Rec>)
    requires b < |buckets|
    ensures Count(buckets[b := chain]) == Count(buckets) - |buckets[b]| + |chain|
  {
    if b == 0 {
      assert buckets[0 := chain][1..] == buckets[1..];
    } else {
      assert buckets[b := chain][1..] == buckets[1..][b - 1 := chain];
      CountUpdate(buckets[1..], b - 1, chain);
    }
  }

  class Table {
    const hash: Source -> nat
    const maxEntries: nat
    const buckets: array<seq<Rec>>
    var total: int

    ghost predicate Valid()
      reads this, buckets
    {
      buckets.Length > 0 && total == Count(buckets[..])
    }

    function Slot(src: Source): nat
      requires buckets.Length > 0
    {
      hash(src) % buckets.Length
    }

    /** The entries a source has in its own chain, newest first. */
    function ListedOf(src: Source): seq<Rec>
      requires buckets.Length > 0
      reads this, buckets
    {
      Of(buckets[Slot(src)], src)
    }

    function NewestOf(src: Source): Entry
      requires buckets.Length > 0 && ListedOf(src) != []
      reads this, buckets, ListedOf(src)
    {
      ListedOf(src)[0].entry
    }

    /** The entry a packet of the source finds, if there is one. */
    function FoundBy(src: Source): set<Rec>
      requires buckets.Length > 0
      reads this, buckets
    {
      if ListedOf(src) == [] then {} else {ListedOf(src)[0]}
    }

    constructor (hash: Source -> nat, size: nat)
      requires size > 0
      ensures fresh(buckets) && buckets.Length == size && Valid() && total == 0
      ensures forall src :: ListedOf(src) == []
    {
      this.hash, maxEntries, total := hash, size * 8, 0;
      buckets := new seq<Rec>[size](_ => []);
      new;
      CountEmpty(buckets[..]);
    }

    /** The search of wg_ratelimiter_allow() along the chain: the newest entry of the source. */
    method Find(src: Source) returns (r: Rec?)
      requires buckets.Length > 0
      ensures r == null <==> ListedOf(src) == []
      ensures r != null ==> r == ListedOf(src)[0] && r.source == src
    {
      var chain, i := buckets[Slot(src)], 0;
      while i < |chain| && chain[i].source != src
        invariant 0 <= i <= |chain| && Of(chain[i..], src) == ListedOf(src)
      {
        i := i + 1;
      }
      if i < |chain| { return chain[i]; }
      return null;
    }

    method Write(b: nat, chain: seq<Rec>)
      requires Valid() && b < buckets.Length
      modifies this`total, buckets
      ensures Valid() && buckets[..] == old(buckets[..])[b := chain]
      ensures total == old(total) - old(|buckets[b]|) + |chain|
    {
      CountUpdate(buckets[..], b, chain);
      total := total - |buckets[b]| + |chain|;
      buckets[b] := chain;
    }

    /** What wg_ratelimiter_allow() does for a packet that found no entry, in front of what is there by now */
    method Insert(src: Source, now: nat, memory: bool) returns (ok: bool)
      requires Valid()
      modifies this`total, buckets
      ensures Valid() && (ok <==> old(total) + 1 <= maxEntries && memory)
      ensures ok ==> ListedOf(src) != [] && fresh(ListedOf(src)[0]) && NewestOf(src) == Fresh(now)
      ensures (if ok then ListedOf(src)[1..] else ListedOf(src)) == old(ListedOf(src))
      ensures forall other :: other != src ==> ListedOf(other) == old(ListedOf(other))
    {
      if total + 1 > maxEntries || !memory { return false; }
      var b := Slot(src);
      var chain := buckets[b];
      var r := new Rec(src, Fresh(now));
      forall other ensures Of([r] + chain, other) == (if other == src then [r] else []) + Of(chain, other) {
        OfJoin([r], chain, other);
        One(r, other);
      }
      Write(b, [r] + chain);
      return true;
    }

    /** A packet updates an entry it found, first of its source, behind others, or unlinked: no chain changes. */
    method Update(r: Rec, now: nat) returns (ok: bool)
      requires Valid()
      modifies r
      ensures Valid() && (r.entry, ok) == Hit(old(r.entry), now)
      ensures forall src :: ListedOf(src) == old(ListedOf(src))
    {
      ok := r.Update(now);
    }

    /** wg_ratelimiter_allow() without interference */
    method Allow(src: Source, now: nat, memory: bool) returns (ok: bool)
      requires Valid()
      modifies this`total, buckets, FoundBy(src)
      ensures Valid()
      ensures old(ListedOf(src)) != [] ==>
                ListedOf(src) == old(ListedOf(src)) && (NewestOf(src), ok) == Hit(old(NewestOf(src)), now)
      ensures old(ListedOf(src)) == [] ==>
                && (ok <==> old(total) + 1 <= maxEntries && memory)
                && (if ok then |ListedOf(src)| == 1 && NewestOf(src) == Fresh(now) else ListedOf(src) == [])
      ensures forall other :: other != src ==> ListedOf(other) == old(ListedOf(other))
    {
      var r := Find(src);
      if r != null {
        ok := Update(r, now);
      } else {
        ok := Insert(src, now, memory);
      }
    }

    /** wg_ratelimiter_gc_entries() on one chain */
    method CollectChain(b: nat, began: nat)
      requires Valid() && b < buckets.Length
      modifies this`total, buckets
      ensures Valid() && buckets[..] == old(buckets[..])[b := Collected(old(buckets[b]), began)]
    {
      var chain, kept, i := buckets[b], [], 0;
      while i < |chain|
        invariant 0 <= i <= |chain| && kept == Collected(chain[..i], began)
        invariant Valid() && buckets[..] == old(buckets[..])
      {
        CollectedJoin(chain[..i], [chain[i]], began);
        assert chain[..i + 1] == chain[..i] + [chain[i]] && [chain[i]][1..] == [];
        if !Expired(chain[i].entry, began) { kept := kept + [chain[i]]; }
        i := i + 1;
      }
      assert chain[..i] == chain;
      Write(b, kept);
    }

    /** wg_ratelimiter_gc_entries() without interference: the clock is read once, then every chain is visited. */
    method CollectEntries(began: nat)
      requires Valid()
      modifies this`total, buckets
      ensures Valid()
      ensures forall src :: ListedOf(src) == Collected(old(ListedOf(src)), began)
    {
      var b := 0;
      while b < buckets.Length
        invariant 0 <= b <= buckets.Length && Valid()
        invariant forall k :: 0 <= k < b ==> buckets[k] == Collected(old(buckets[..])[k], began)
        invariant forall k :: b <= k < buckets.Length ==> buckets[k] == old(buckets[..])[k]
      {
        CollectChain(b, began);
        b := b + 1;
      }
      forall src
        ensures ListedOf(src) == Collected(old(ListedOf(src)), began)
      {
        OfCollected(old(buckets[..])[Slot(src)], began, src);
      }
    }
  }

  lemma {:induction false} CountEmpty(buckets: seq<seq<Rec>>)
    requires forall b :: 0 <= b < |buckets| ==> buckets[b] == []
    ensures Count(buckets) == 0
  {
    if buckets == [] {
    } else {
      CountEmpty(buckets[1..]);
    }
  }
}
