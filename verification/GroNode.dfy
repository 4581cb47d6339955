/**
 Receive offload in place: the loop over the held packets of a bucket, the backward loop of a
 chain's flush, and the loop that finds the buckets to flush by shifting the bitmask.  Each
 method computes what GroEngine says.
 */
module GroNode {
  import opened Maybe
  import opened GroEngine
  import opened GroSafety

  /** ffs(): one more than the index of the lowest set bit, 0 for none; bit 0 comes first. */
  function Ffs(word: seq<bool>): (i: nat)
    ensures i <= |word| && (i > 0 ==> word[i - 1] && forall j :: 0 <= j < i - 1 ==> !word[j])
    ensures i == 0 ==> forall j :: 0 <= j < |word| ==> !word[j]
  {
    if word == [] then 0
    else if word[0] then 1
    else
      var i := Ffs(word[1..]);
      assert forall j :: 1 <= j < |word| ==> word[j] == word[1..][j - 1];
      if i == 0 then 0 else i + 1
  }

  /** Passing over buckets whose bit is clear. */
  lemma {:induction false} SkipClear(g: Gro, i: nat, j: nat, onlyOld: bool, now: nat)
    requires Shape(g) && i <= j <= GRO_HASH_BUCKETS && forall k :: i <= k < j ==> !g.bits[k]
    ensures FlushFrom(g, i, onlyOld, now) == FlushFrom(g, j, onlyOld, now)
    decreases j - i
  {
    if i < j { SkipClear(g, i + 1, j, onlyOld, now); }
  }

  /** Finding the next bucket by shifting finds the next one the plain flush would touch. */
  lemma NextByShift(g: Gro, from: nat, word: seq<bool>, onlyOld: bool, now: nat)
    requires Shape(g) && from <= GRO_HASH_BUCKETS && word == g.bits[from..]
    ensures Ffs(word) == 0 ==> FlushFrom(g, from, onlyOld, now) == g
    ensures Ffs(word) > 0 ==>
              var k := from + Ffs(word) - 1;
              && k < GRO_HASH_BUCKETS && g.bits[k]
              && FlushFrom(g, from, onlyOld, now) == FlushFrom(FlushOne(g, k, onlyOld, now), k + 1, onlyOld, now)
  {
    var i := Ffs(word);
    var stop := if i == 0 then GRO_HASH_BUCKETS else from + i - 1;
    forall k | from <= k < stop
      ensures !g.bits[k]
    {
      assert g.bits[k] == word[k - from];
    }
    SkipClear(g, from, stop, onlyOld, now);
    if i > 0 { assert g.bits[stop] == word[i - 1]; }
  }

  class Node {
    const lists: array<seq<Held>>
    const counts: array<nat>
    const bits: array<bool>
    var out: seq<Held>
    var passed: seq<Bytes>

    ghost predicate Sized() {
      && lists.Length == counts.Length == bits.Length == GRO_HASH_BUCKETS
      && (counts as object) != lists && (bits as object) != lists && (bits as object) != counts
    }

    ghost function View(): Gro
      reads this, lists, counts, bits
    {
      Gro(lists[..], counts[..], bits[..], out, passed)
    }

    constructor ()
      ensures Sized() && fresh(lists) && fresh(counts) && fresh(bits) && View() == Empty()
    {
      lists := new seq<Held>[8](_ => []);
      counts := new nat[8](_ => 0);
      bits := new bool[8](_ => false);
      out, passed := [], [];
    }

    /** udp_gro_receive_segment(): the held packet to complete, if any, and whether the packet was merged. */
    method ReceiveSegment(p: Packet) returns (pp: Option<nat>, sameFlow: bool)
      requires Sized() && p.bucket < GRO_HASH_BUCKETS && |lists[p.bucket]| == counts[p.bucket]
      modifies lists
      ensures forall k :: 0 <= k < GRO_HASH_BUCKETS && k != p.bucket ==> lists[k] == old(lists[k])
      ensures |lists[p.bucket]| == counts[p.bucket] && (pp.Some? ==> pp.value < counts[p.bucket])
      ensures var b := Bucket(lists[p.bucket], counts[p.bucket], out);
              (if pp.Some? then Complete(b, pp.value) else b, sameFlow) ==
              Offer(Bucket(old(lists[p.bucket]), counts[p.bucket], out), p)
    {
      pp, sameFlow := None, false;
      if !p.checksum { return; }
      if p.len <= UDP_HEADER || p.len != UDP_HEADER + |p.data| { return; }
      var list := lists[p.bucket];
      var i := 0;
      while i < |list| && list[i].flow != p.flow
        invariant 0 <= i <= |list| && forall j :: 0 <= j < i ==> list[j].flow != p.flow
        invariant lists[..] == old(lists[..])
      {
        i := i + 1;
      }
      MatchIs(list, p.flow, i);
      if i == |list| { return; }
      var h := list[i];
      if p.len > h.len || p.netFlush || p.refuse || p.flush { return Some(i), false; }
      lists[p.bucket] := list[i := Grown(h, p)];
      sameFlow := true;
      if p.len != h.len || h.count + 1 >= UDP_GRO_CNT_MAX { pp := Some(i); }
    }

    /** The packet is offered to its bucket: complete what it completes, and pass it on or hold it if it was not
        merged. */
    method Merge(p: Packet, now: nat)
      requires Sized() && p.bucket < GRO_HASH_BUCKETS && |lists[p.bucket]| == counts[p.bucket] && !p.elide
      modifies this, lists, counts
      ensures forall k :: 0 <= k < GRO_HASH_BUCKETS && k != p.bucket ==>
              lists[k] == old(lists[k]) && counts[k] == old(counts[k])
      ensures var b := Bucket(old(lists[p.bucket]), old(counts[p.bucket]), old(out));
              && Bucket(lists[p.bucket], counts[p.bucket], out) == Received(b, p, now)
              && passed == old(passed) + if Passes(b, p) then [p.data] else []
    {
      var k := p.bucket;
      var pp, sameFlow := ReceiveSegment(p);
      if pp.Some? {
        out := out + [lists[k][pp.value]];
        lists[k] := Remove(lists[k], pp.value);
        counts[k] := counts[k] - 1;
      }
      if !sameFlow { Keep(p, now); }
    }

    /** dev_gro_receive(): the packet goes to its bucket unless it is elided, and the bucket's bit is fixed. */
    method DevGroReceive(p: Packet, now: nat)
      requires Sized() && p.bucket < GRO_HASH_BUCKETS && |lists[p.bucket]| == counts[p.bucket]
      modifies this, lists, counts, bits
      ensures View() == Receive(old(View()), p, now)
    {
      ghost var g := View();
      var k := p.bucket;
      if p.elide {
        passed := passed + [p.data];
      } else {
        Merge(p, now);
      }
      bits[k] := counts[k] != 0;
      assert View().lists == Receive(g, p, now).lists;
      assert View().counts == Receive(g, p, now).counts;
      assert View().bits == Receive(g, p, now).bits;
    }

    /** A packet that was not merged goes up as it is, or is held in front of the list. */
    method Keep(p: Packet, now: nat)
      requires Sized() && p.bucket < GRO_HASH_BUCKETS && |lists[p.bucket]| == counts[p.bucket]
      modifies this, lists, counts
      ensures forall k :: 0 <= k < GRO_HASH_BUCKETS && k != p.bucket ==>
              lists[k] == old(lists[k]) && counts[k] == old(counts[k])
      ensures var b := Bucket(old(lists[p.bucket]), old(counts[p.bucket]), old(out));
              Bucket(lists[p.bucket], counts[p.bucket], out) == if Holds(p) then Hold(b, p, now) else b
      ensures passed == old(passed) + if Holds(p) then [] else [p.data]
    {
      var k := p.bucket;
      if !p.checksum || p.len <= UDP_HEADER || p.len != UDP_HEADER + |p.data| || p.flush {
        passed := passed + [p.data];
        return;
      }
      if counts[k] >= MAX_GRO_SKBS {
        var last := |lists[k]| - 1;
        out := out + [lists[k][last]];
        lists[k] := lists[k][..last];
      } else {
        counts[k] := counts[k] + 1;
      }
      lists[k] := [NewHeld(p, now)] + lists[k];
    }

    /** __gro_flush_chain() */
    method GroFlushChain(k: nat, onlyOld: bool, now: nat)
      requires Sized() && k < GRO_HASH_BUCKETS && |lists[k]| == counts[k]
      modifies this`out, lists, counts, bits
      ensures forall j :: 0 <= j < GRO_HASH_BUCKETS && j != k ==>
                lists[j] == old(lists[j]) && counts[j] == old(counts[j]) && bits[j] == old(bits[j])
      ensures Bucket(lists[k], counts[k], out)
              == FlushChain(Bucket(old(lists[k]), old(counts[k]), old(out)), onlyOld, now)
      ensures bits[k] == if counts[k] == 0 then false else old(bits[k])
    {
      ghost var b0 := Bucket(lists[k], counts[k], out);
      while lists[k] != []
        invariant |lists[k]| == counts[k] && bits[..] == old(bits[..])
        invariant FlushChain(b0, onlyOld, now) == FlushChain(Bucket(lists[k], counts[k], out), onlyOld, now)
        invariant forall j :: 0 <= j < GRO_HASH_BUCKETS && j != k ==>
                  lists[j] == old(lists[j]) && counts[j] == old(counts[j])
        decreases |lists[k]|
      {
        var last := |lists[k]| - 1;
        if onlyOld && lists[k][last].age == now { return; }
        out := out + [lists[k][last]];
        lists[k] := lists[k][..last];
        counts[k] := counts[k] - 1;
      }
      if counts[k] == 0 { bits[k] := false; }
    }

    /** One round of __gro_flush() on a bucket whose bit is set. */
    method FlushBucket(k: nat, onlyOld: bool, now: nat)
      requires Sized() && NodeOk(View(), now) && k < GRO_HASH_BUCKETS && bits[k]
      modifies this`out, lists, counts, bits
      ensures View() == FlushOne(old(View()), k, onlyOld, now) && NodeOk(View(), now)
      ensures forall j :: 0 <= j < GRO_HASH_BUCKETS && j != k ==> bits[j] == old(bits[j])
    {
      ghost var g := View();
      assert SlotOk(g, k, now);
      FlushOneOk(g, k, onlyOld, now);
      GroFlushChain(k, onlyOld, now);
      ghost var g' := FlushOne(g, k, onlyOld, now);
      assert g'.bits[k] == (counts[k] != 0);
      assert View().lists == g'.lists && View().counts == g'.counts && View().bits == g'.bits;
    }

    /** Shifts the mask past its lowest set bit and flushes that bucket. */
    method FlushNext(bitmask: seq<bool>, base: int, onlyOld: bool, now: nat,
                     ghost goal: Gro) returns (bitmask': seq<bool>, base': int)
      requires Sized() && NodeOk(View(), now) && -1 <= base < GRO_HASH_BUCKETS && bitmask == bits[..][base + 1..]
      requires Ffs(bitmask) != 0 && goal == FlushFrom(View(), base + 1, onlyOld, now)
      modifies this`out, lists, counts, bits
      ensures NodeOk(View(), now) && base < base' < GRO_HASH_BUCKETS && bitmask' == bits[..][base' + 1..]
      ensures goal == FlushFrom(View(), base' + 1, onlyOld, now)
    {
      NextByShift(View(), base + 1, bitmask, onlyOld, now);
      var i := Ffs(bitmask);
      bitmask', base' := bitmask[i..], base + i;
      FlushBucket(base', onlyOld, now);
    }

    /** __gro_flush(): the set bits of the mask, found by shifting it, from the lowest up. */
    method GroFlush(onlyOld: bool, now: nat)
      requires Sized() && NodeOk(View(), now)
      modifies this`out, lists, counts, bits
      ensures View() == FlushFrom(old(View()), 0, onlyOld, now) && NodeOk(View(), now)
    {
      ghost var goal := FlushFrom(View(), 0, onlyOld, now);
      var bitmask, base := bits[..], -1;
      while Ffs(bitmask) != 0
        invariant -1 <= base < GRO_HASH_BUCKETS && NodeOk(View(), now) && bitmask == bits[..][base + 1..]
        invariant goal == FlushFrom(View(), base + 1, onlyOld, now)
        decreases GRO_HASH_BUCKETS - base
      {
        bitmask, base := FlushNext(bitmask, base, onlyOld, now, goal);
      }
      NextByShift(View(), base + 1, bitmask, onlyOld, now);
    }
  }

  lemma {:induction false} MatchIs(list: seq<Held>, flow: nat, i: nat)
    requires i <= |list| && (i < |list| ==> list[i].flow == flow) && forall j :: 0 <= j < i ==> list[j].flow != flow
    ensures Match(list, flow) == i
  {
    if i == 0 {
    } else {
      MatchIs(list[1..], flow, i - 1);
    }
  }
}
