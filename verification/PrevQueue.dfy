/**
 The peer queue and the poll loop as the source writes them: nodes linked in place
 through their prev field, with a stub node, run without interference.  The methods are
 proved against the plain sequence of queued packets; what interference can and cannot do
 to them is the subject of RxSafety.
 */
module PrevQueue {
  import Rx = RxPipeline

  /** struct sk_buff, with its state as an uninterrupted poll finds it. */
  class Skb {
    var prev: Skb?
    const state: Rx.PacketState
    constructor (state: Rx.PacketState)
      ensures prev == null && this.state == state
    {
      prev := null;
      this.state := state;
    }
  }

  predicate Distinct(chain: seq<Skb>) {
    forall i, j :: 0 <= i < j < |chain| ==> chain[i] != chain[j]
  }

  /** The chain without the stub. */
  function Packets(chain: seq<Skb>, stub: Skb): (r: seq<Skb>)
    ensures forall x :: x in r ==> x in chain && x != stub
    ensures forall x :: x in chain && x != stub ==> x in r
    ensures |r| <= |chain|
  {
    if chain == [] then []
    else if chain[0] == stub then Packets(chain[1..], stub)
    else [chain[0]] + Packets(chain[1..], stub)
  }

  lemma {:induction false} PacketsAppend(chain: seq<Skb>, x: Skb, stub: Skb)
    ensures Packets(chain + [x], stub) == Packets(chain, stub) + (if x == stub then [] else [x])
  {
    if chain == [] {
      assert chain + [x] == [x];
      assert [x][1..] == [];
    } else {
      assert (chain + [x])[1..] == chain[1..] + [x];
      PacketsAppend(chain[1..], x, stub);
    }
  }

  /** How many packets the poll takes: the decided packets at the front, up to the budget. */
  function Ready(states: seq<Rx.PacketState>, budget: nat): (k: nat)
    ensures k <= |states| && k <= budget
    ensures forall i :: 0 <= i < k ==> !states[i].Uncrypted?
    ensures k < |states| && k < budget ==> states[k].Uncrypted?
  {
    if states == [] || budget == 0 || states[0].Uncrypted? then 0
    else 1 + Ready(states[1..], budget - 1)
  }

  function States(packets: seq<Skb>): seq<Rx.PacketState> {
    seq(|packets|, i requires 0 <= i < |packets| => packets[i].state)
  }

  class Queue {
    const empty: Skb
    var head: Skb
    var tail: Skb
    var peeked: Skb?
    var count: int
    ghost var chain: seq<Skb>

    ghost predicate Valid()
      reads this, chain
    {
      && chain != [] && Distinct(chain)
      && tail == chain[0] && head == chain[|chain| - 1]
      && (forall i :: 0 <= i < |chain| - 1 ==> chain[i].prev == chain[i + 1])
      && head.prev == null
      && count == |Packets(chain, empty)| <= Rx.MAX_QUEUED_PACKETS
      && peeked != empty
      && (peeked != null ==> peeked !in chain)
    }

    /** What is queued, oldest first; a peeked packet is still at the front. */
    ghost function Contents(): seq<Skb>
      reads this
    {
      (if peeked == null then [] else [peeked]) + Packets(chain, empty)
    }

    /** wg_prev_queue_init() */
    constructor ()
      ensures Valid() && Contents() == [] && fresh(empty)
    {
      var stub := new Skb(Rx.Crypted);
      empty, head, tail, peeked, count := stub, stub, stub, null, 0;
      chain := [stub];
      new;
      assert [stub][1..] == [];
    }

    /** __wg_prev_queue_enqueue() */
    method Append(skb: Skb)
      requires Valid() && skb !in chain && skb != peeked
      requires skb != empty ==> count < Rx.MAX_QUEUED_PACKETS
      modifies this`head, this`chain, this`count, skb`prev, head`prev
      ensures chain == old(chain) + [skb] && head == skb
      ensures count == old(count) + (if skb == empty then 0 else 1)
      ensures Valid()
    {
      skb.prev := null;
      var prev := head;
      head := skb;
      prev.prev := skb;
      ghost var was := chain;
      chain := chain + [skb];
      if skb != empty { count := count + 1; }
      PacketsAppend(was, skb, empty);
      forall i | 0 <= i < |chain| - 1
        ensures chain[i].prev == chain[i + 1]
      {
        if i < |was| - 1 { assert was[i] != was[|was| - 1]; }
      }
    }

    /** wg_prev_queue_enqueue() */
    method Enqueue(skb: Skb) returns (ok: bool)
      requires Valid() && skb !in chain && skb != peeked && skb != empty
      modifies this`head, this`chain, this`count, skb`prev, head`prev
      ensures Valid()
      ensures ok <==> old(count) != Rx.MAX_QUEUED_PACKETS
      ensures Contents() == old(Contents()) + (if ok then [skb] else [])
    {
      if count == Rx.MAX_QUEUED_PACKETS { return false; }
      ghost var was := chain;
      Append(skb);
      PacketsAppend(was, skb, empty);
      return true;
    }

    /** Moves queue->tail to the node behind it. */
    method Pass(next: Skb)
      requires Valid() && tail.prev == next && |chain| > 1 && peeked == null
      modifies this`tail, this`chain, this`count
      ensures Valid() && tail == next && chain == old(chain)[1..]
      ensures count == old(count) - (if old(tail) == empty then 0 else 1)
    {
      ghost var was := chain;
      assert next == was[1];
      if tail != empty { count := count - 1; }
      tail := next;
      chain := chain[1..];
      forall i | 0 <= i < |chain| - 1
        ensures chain[i].prev == chain[i + 1]
      {
        assert was[i + 1].prev == was[i + 2];
      }
    }

    lemma FirstLink()
      requires Valid()
      ensures |chain| > 1 ==> chain[0].prev == chain[1]
    {
    }

    /** wg_prev_queue_dequeue(): the oldest packet, and NULL only when there is none. */
    method Dequeue() returns (skb: Skb?)
      requires Valid() && peeked == null
      modifies this, empty`prev, chain`prev
      ensures Valid() && peeked == null
      ensures skb == null <==> old(Contents()) == []
      ensures skb == null ==> Contents() == []
      ensures skb != null ==> skb != empty && skb !in chain && [skb] + Contents() == old(Contents())
      ensures forall x :: x in chain ==> x in old(chain) || x == empty
    {
      if tail == empty {
        if tail.prev == null {
          FirstLink();
          assert chain[1..] == [];
          return null;
        }
        Pass(tail.prev);
      }
      skb := tail;
      if tail.prev != null {
        Pass(tail.prev);
        return;
      }
      FirstLink();
      if tail != head { return null; }
      ghost var one := chain;
      Append(empty);
      PacketsAppend(one, empty, empty);
      Pass(tail.prev);
    }

    /** wg_prev_queue_peek() */
    method Peek() returns (skb: Skb?)
      requires Valid()
      modifies this, empty`prev, chain`prev
      ensures Valid() && peeked == skb && Contents() == old(Contents())
      ensures skb == null <==> Contents() == []
      ensures skb != null ==> Contents()[0] == skb
      ensures forall x :: x in chain ==> x in old(chain) || x == empty
    {
      if peeked != null { return peeked; }
      skb := Dequeue();
      peeked := skb;
    }

    /** wg_prev_queue_drop_peeked() */
    method DropPeeked()
      requires Valid()
      modifies this`peeked
      ensures Valid() && peeked == null
      ensures old(peeked) != null ==> Contents() == old(Contents())[1..]
    {
      peeked := null;
    }

    /** The loop condition of wg_packet_rx_poll() and the drop behind it. */
    method TakeReady() returns (skb: Skb?)
      requires Valid()
      modifies this, empty`prev, chain`prev
      ensures Valid()
      ensures skb == null ==> Contents() == old(Contents()) && (Contents() == [] || Contents()[0].state.Uncrypted?)
      ensures skb != null ==> !skb.state.Uncrypted? && old(Contents()) == [skb] + Contents()
      ensures forall i :: 0 <= i < |chain| ==> chain[i] in old(chain) || chain[i] == empty
    {
      skb := Peek();
      if skb != null {
        if skb.state.Uncrypted? { return null; }
        DropPeeked();
      }
    }

    /**
     wg_packet_rx_poll(): takes exactly the decided packets at the front of the queue, in
     order, up to the budget, and completes the poll if and only if budget is left over.
     */
    method Poll(budget: int) returns (workDone: int, completed: bool, taken: seq<Skb>)
      requires Valid()
      modifies this, empty`prev, chain`prev
      ensures Valid()
      ensures var k := Ready(States(old(Contents())), if budget > 0 then budget else 0);
              && workDone == k
              && taken == old(Contents())[..k]
              && Contents() == old(Contents())[k..]
      ensures completed <==> 0 < budget && workDone < budget
    {
      workDone, completed, taken := 0, false, [];
      if budget <= 0 { return; }
      ghost var all := Contents();
      while workDone < budget
        invariant Valid() && 0 <= workDone <= budget && Taken(all, workDone, taken, Contents())
        invariant forall i :: 0 <= i < |chain| ==> chain[i] in old(chain) || chain[i] == empty
        decreases budget - workDone
      {
        var skb := TakeReady();
        if skb == null { break; }
        OneReady(all, workDone, taken, skb, Contents());
        taken, workDone := taken + [skb], workDone + 1;
      }
      AllTaken(all, budget, workDone, taken, Contents());
      completed := workDone < budget;
    }
  }

  /** The poll has taken the first n packets, all decided, and left the rest. */
  ghost predicate Taken(all: seq<Skb>, n: nat, taken: seq<Skb>, rest: seq<Skb>) {
    n <= |all| && taken == all[..n] && rest == all[n..] && forall i :: 0 <= i < n ==> !all[i].state.Uncrypted?
  }

  /** One round of the poll on the values: the packet taken is the next one. */
  lemma OneReady(all: seq<Skb>, n: nat, taken: seq<Skb>, skb: Skb, rest: seq<Skb>)
    requires Taken(all, n, taken, [skb] + rest) && !skb.state.Uncrypted?
    ensures Taken(all, n + 1, taken + [skb], rest)
  {
    assert n < |all| && all[n..][0] == all[n] == skb;
    assert all[n + 1..] == all[n..][1..];
  }

  /** The poll has taken what was ready. */
  lemma AllTaken(all: seq<Skb>, budget: nat, n: nat, taken: seq<Skb>, rest: seq<Skb>)
    requires Taken(all, n, taken, rest) && n <= budget
    requires n < budget ==> rest == [] || rest[0].state.Uncrypted?
    ensures Ready(States(all), budget) == n && taken == all[..n] && rest == all[n..]
  {
    ReadyIs(States(all), budget, n);
  }

  /** Ready is determined by where the undecided packet, the end or the budget is met. */
  lemma {:induction false} ReadyIs(states: seq<Rx.PacketState>, budget: nat, k: nat)
    requires k <= |states| && k <= budget
    requires forall i :: 0 <= i < k ==> !states[i].Uncrypted?
    requires k < |states| && k < budget ==> states[k].Uncrypted?
    ensures Ready(states, budget) == k
  {
    if k == 0 {
    } else {
      ReadyIs(states[1..], budget - 1, k - 1);
    }
  }

  /** With every packet decided and budget to spare, one poll empties the queue. */
  lemma AllReady(states: seq<Rx.PacketState>, budget: nat)
    requires |states| < budget && forall i :: 0 <= i < |states| ==> !states[i].Uncrypted?
    ensures Ready(states, budget) == |states|
  {
    ReadyIs(states, budget, |states|);
  }
}
