/**
 The per-node accounting in place, each operation run without interference: taking a count,
 passing it on when an item retires, and filling up when the limit is raised.  What
 interference can and cannot do to them is the subject of NodeActiveSafety.
 */
module NodeCounts {
  import opened NodeActiveSafety
  import opened Sums

  /** The number of waiting items. */
  function WaitingItems(inactive: seq<seq<nat>>): nat {
    if inactive == [] then 0 else |inactive[0]| + WaitingItems(inactive[1..])
  }

  lemma {:induction false} WaitingUpdate(inactive: seq<seq<nat>>, p: nat, list: seq<nat>)
    requires p < |inactive|
    ensures WaitingItems(inactive[p := list]) == WaitingItems(inactive) - |inactive[p]| + |list|
  {
    if p == 0 {
      assert inactive[0 := list][1..] == inactive[1..];
    } else {
      assert inactive[p := list][1..] == inactive[1..][p - 1 := list];
      WaitingUpdate(inactive[1..], p - 1, list);
    }
  }

  /** The pwqs at the front of the list that have nothing waiting any more. */
  function Spurious(pending: seq<nat>, inactive: seq<seq<nat>>): (k: nat)
    ensures k <= |pending|
    ensures forall i :: 0 <= i < k ==> pending[i] < |inactive| && inactive[pending[i]] == []
    ensures k < |pending| && pending[k] < |inactive| ==> inactive[pending[k]] != []
  {
    if pending == [] || pending[0] >= |inactive| || inactive[pending[0]] != [] then 0
    else 1 + Spurious(pending[1..], inactive)
  }

  lemma {:induction false} OnceSuffix(pending: seq<nat>, k: nat)
    requires Once(pending) && k <= |pending|
    ensures Once(pending[k..])
  {
    if k > 0 {
      OnceSuffix(pending[1..], k - 1);
      assert pending[1..][k - 1..] == pending[k..];
    }
  }

  /** From every pwq's waiting list some first items were taken, and each was counted as active. */
  predicate FrontTaken(active: seq<nat>, inactive: seq<seq<nat>>, active': seq<nat>, inactive': seq<seq<nat>>) {
    && |active| == |inactive| == |active'| == |inactive'|
    && (forall q :: 0 <= q < |inactive| ==> TakenAt(active[q], inactive[q], active'[q], inactive'[q]))
  }

  predicate TakenAt(a: nat, list: seq<nat>, a': nat, list': seq<nat>) {
    && |list'| <= |list| && list' == list[|list| - |list'|..] && a' == a + |list| - |list'|
  }

  lemma TakenOne(a0: seq<nat>, i0: seq<seq<nat>>, a1: seq<nat>, i1: seq<seq<nat>>, p: nat)
    requires FrontTaken(a0, i0, a1, i1) && p < |i1| && i1[p] != []
    ensures FrontTaken(a0, i0, a1[p := a1[p] + 1], i1[p := i1[p][1..]])
  {
    assert TakenAt(a0[p], i0[p], a1[p], i1[p]);
  }

  lemma TakenTwice(a0: seq<nat>, i0: seq<seq<nat>>, a1: seq<nat>, i1: seq<seq<nat>>, a2: seq<nat>, i2: seq<seq<nat>>)
    requires FrontTaken(a0, i0, a1, i1) && FrontTaken(a1, i1, a2, i2)
    ensures FrontTaken(a0, i0, a2, i2)
  {
    forall q | 0 <= q < |i0|
      ensures TakenAt(a0[q], i0[q], a2[q], i2[q])
    {
      assert TakenAt(a0[q], i0[q], a1[q], i1[q]) && TakenAt(a1[q], i1[q], a2[q], i2[q]);
    }
  }

  class Node {
    var nr: int
    var max: int
    var pending: seq<nat>
    const active: array<nat>
    const inactive: array<seq<nat>>

    /** The shared count is the sum of the pwqs' counts, and whoever has items waiting is on the list. */
    ghost predicate Valid()
      reads this, active, inactive
    {
      && active.Length == inactive.Length && (active as object) != inactive
      && nr == Sum(active[..]) && Once(pending)
      && (forall i :: 0 <= i < |pending| ==> pending[i] < active.Length)
      && (forall p :: 0 <= p < inactive.Length && inactive[p] != [] ==> p in pending)
    }

    ghost predicate NothingWaits()
      reads inactive
    {
      forall q :: 0 <= q < inactive.Length ==> inactive[q] == []
    }

    constructor (pwqs: nat, max: int)
      ensures Valid() && nr == 0 && this.max == max && pending == [] && fresh(active) && fresh(inactive)
      ensures active.Length == pwqs && forall p :: 0 <= p < pwqs ==> active[p] == 0 && inactive[p] == []
    {
      nr, this.max, pending := 0, max, [];
      active := new nat[pwqs](_ => 0);
      inactive := new seq<nat>[pwqs](_ => []);
      new;
      SumZero(active[..]);
    }

    /** A count has been obtained for pwq p. */
    method Take(p: nat)
      requires Valid() && p < active.Length
      modifies this`nr, active
      ensures Valid() && nr == old(nr) + 1 && active[..] == old(active[..])[p := old(active[p]) + 1]
    {
      SumUpdate(active[..], p, active[p] + 1);
      nr := nr + 1;
      active[p] := active[p] + 1;
    }

    /** pwq_tryinc_nr_active(): a pwq that waits does not jump the line unless told to fill up. */
    method TryInc(p: nat, fill: bool) returns (obtained: bool)
      requires Valid() && p < active.Length && (fill || inactive[p] == [])
      modifies this`nr, this`pending, active
      ensures Valid()
      ensures obtained <==> old(nr) < max && (fill || p !in old(pending))
      ensures obtained ==> nr == old(nr) + 1 && active[..] == old(active[..])[p := old(active[p]) + 1]
      ensures obtained ==> pending == old(pending)
      ensures !obtained ==> nr == old(nr) && active[..] == old(active[..]) && p in pending
      ensures !obtained ==> pending == if p in old(pending) then old(pending) else old(pending) + [p]
    {
      if p in pending && !fill { return false; }
      if nr < max {
        Take(p);
        return true;
      }
      if p !in pending {
        OnceAppend(pending, p);
        pending := pending + [p];
      }
      return false;
    }

    /** __queue_work(): a new item runs at once only if nothing of its pwq waits and a count is free. */
    method QueueWork(p: nat, work: nat) returns (ran: bool)
      requires Valid() && p < active.Length
      modifies this`nr, this`pending, active, inactive
      ensures Valid()
      ensures ran <==> old(inactive[p]) == [] && old(nr) < max && p !in old(pending)
      ensures inactive[..] == if ran then old(inactive[..]) else old(inactive[..])[p := old(inactive[p]) + [work]]
      ensures nr == old(nr) + if ran then 1 else 0
      ensures active[..] == if ran then old(active[..])[p := old(active[p]) + 1] else old(active[..])
      ensures pending == if ran || p in old(pending) then old(pending) else old(pending) + [p]
    {
      if inactive[p] == [] {
        ran := TryInc(p, false);
        if ran { return; }
      }
      inactive[p] := inactive[p] + [work];
      return false;
    }

    /** pwq_activate_first_inactive() with fill set: the first waiting item, if a count is free. */
    method ActivateFirstInactive(p: nat) returns (activated: bool)
      requires Valid() && p < active.Length
      modifies this`nr, this`pending, active, inactive
      ensures Valid()
      ensures activated <==> old(inactive[p]) != [] && old(nr) < max
      ensures activated ==> inactive[..] == old(inactive[..])[p := old(inactive[p])[1..]] && nr == old(nr) + 1
      ensures activated ==> active[..] == old(active[..])[p := old(active[p]) + 1]
      ensures !activated ==> inactive[..] == old(inactive[..]) && nr == old(nr) && active[..] == old(active[..])
      ensures pending == old(pending)
    {
      if inactive[p] == [] { return false; }
      activated := TryInc(p, true);
      if activated { inactive[p] := inactive[p][1..]; }
    }

    /** The retry loop of node_activate_pending_pwq(): drops pwqs with nothing waiting from the front. */
    method DropSpurious()
      requires Valid()
      modifies this`pending
      ensures Valid() && pending == old(pending)[Spurious(old(pending), inactive[..])..]
      ensures pending != [] ==> inactive[pending[0]] != []
    {
      ghost var all, n := pending, 0;
      while pending != [] && inactive[pending[0]] == []
        invariant Valid() && n <= |all| && pending == all[n..]
        invariant Spurious(all, inactive[..]) == n + Spurious(pending, inactive[..])
        decreases |pending|
      {
        DropFirst();
        n := n + 1;
      }
    }

    method DropFirst()
      requires Valid() && pending != [] && inactive[pending[0]] == []
      modifies this`pending
      ensures Valid() && pending == old(pending)[1..]
    {
      assert pending == [pending[0]] + pending[1..];
      OnceSuffix(pending, 1);
      pending := pending[1..];
    }

    /** node_activate_pending_pwq(): the longest waiting pwq gets the count, and goes to the back. */
    method NodeActivatePending() returns (activated: bool)
      requires Valid()
      modifies this`nr, this`pending, active, inactive
      ensures Valid()
      ensures activated <==> old(nr) < max && Spurious(old(pending), old(inactive[..])) < |old(pending)|
      ensures activated ==>
                var x := old(pending)[Spurious(old(pending), old(inactive[..]))];
                && nr == old(nr) + 1 && active[..] == old(active[..])[x := old(active[x]) + 1]
                && inactive[..] == old(inactive[..])[x := old(inactive[x])[1..]]
                && pending == old(pending)[Spurious(old(pending), old(inactive[..])) + 1..]
                              + if inactive[x] == [] then [] else [x]
      ensures !activated ==> nr == old(nr) && active[..] == old(active[..]) && inactive[..] == old(inactive[..])
      ensures !activated ==> pending == old(pending)[Spurious(old(pending), old(inactive[..]))..]
    {
      DropSpurious();
      if pending == [] || nr >= max { return false; }
      var x := pending[0];
      Take(x);
      Rotate(x);
      return true;
    }

    /** Takes the first item of the first pwq and moves the pwq to the back, or off the list. */
    method Rotate(x: nat)
      requires Valid() && pending != [] && x == pending[0] && inactive[x] != []
      modifies this`pending, inactive
      ensures Valid() && inactive[..] == old(inactive[..])[x := old(inactive[x])[1..]]
      ensures pending == old(pending)[1..] + if inactive[x] == [] then [] else [x]
    {
      assert pending == [x] + pending[1..];
      OnceSuffix(pending, 1);
      OnceAppend(pending[1..], x);
      assert pending[1..] + [] == pending[1..];
      inactive[x] := inactive[x][1..];
      pending := pending[1..] + if inactive[x] == [] then [] else [x];
    }

    /**
     pwq_dec_nr_active(): if the retired count is free under the limit and somebody waits, it is
     passed on, so that without interference the number of active items does not drop.
     */
    method DecNrActive(p: nat)
      requires Valid() && p < active.Length && active[p] > 0
      modifies this`nr, this`pending, active, inactive
      ensures Valid()
      ensures var less, k := old(active[..])[p := old(active[p]) - 1], Spurious(old(pending), old(inactive[..]));
              if old(nr) - 1 < max && k < |old(pending)| then
                var x := old(pending)[k];
                nr == old(nr) && active[..] == less[x := less[x] + 1]
                  && inactive[..] == old(inactive[..])[x := old(inactive[x])[1..]]
              else
                nr == old(nr) - 1 && active[..] == less && inactive[..] == old(inactive[..])
      ensures old(nr) - 1 < max && nr == old(nr) - 1 ==> NothingWaits()
    {
      SumUpdate(active[..], p, active[p] - 1);
      active[p] := active[p] - 1;
      nr := nr - 1;
      if nr >= max { return; }
      if pending != [] { var activated := NodeActivatePending(); }
    }

    /** The body of the loop of wq_adjust_max_active() over the pwqs, in a round that began with a0 and i0. */
    method FillOne(p: nat, ghost a0: seq<nat>, ghost i0: seq<seq<nat>>) returns (one: bool)
      requires Valid() && p < active.Length && FrontTaken(a0, i0, active[..], inactive[..])
      modifies this`nr, this`pending, active, inactive
      ensures Valid() && FrontTaken(a0, i0, active[..], inactive[..])
      ensures one ==> WaitingItems(inactive[..]) < WaitingItems(old(inactive[..])) && nr <= max
      ensures !one ==> inactive[..] == old(inactive[..]) && nr == old(nr) && (nr >= max || inactive[p] == [])
    {
      ghost var was, counts := inactive[..], active[..];
      one := ActivateFirstInactive(p);
      if one {
        WaitingUpdate(was, p, was[p][1..]);
        TakenOne(a0, i0, counts, was, p);
      }
    }

    /** One round of wq_adjust_max_active() over the pwqs. */
    method FillRound() returns (activated: bool)
      requires Valid()
      modifies this`nr, this`pending, active, inactive
      ensures Valid() && FrontTaken(old(active[..]), old(inactive[..]), active[..], inactive[..])
      ensures nr <= max || nr == old(nr)
      ensures activated ==> WaitingItems(inactive[..]) < WaitingItems(old(inactive[..]))
      ensures !activated ==> inactive[..] == old(inactive[..]) && (nr >= max || NothingWaits())
    {
      activated := false;
      var p := 0;
      while p < active.Length
        invariant 0 <= p <= active.Length && Valid() && (nr <= max || nr == old(nr))
        invariant FrontTaken(old(active[..]), old(inactive[..]), active[..], inactive[..])
        invariant activated ==> WaitingItems(inactive[..]) < WaitingItems(old(inactive[..]))
        invariant !activated ==> inactive[..] == old(inactive[..]) && nr == old(nr)
        invariant !activated && nr < max ==> forall q :: 0 <= q < p ==> inactive[q] == []
      {
        var one := FillOne(p, old(active[..]), old(inactive[..]));
        activated, p := activated || one, p + 1;
      }
    }

    /** wq_adjust_max_active(): afterwards the limit is reached, or nothing waits any more. */
    method AdjustMaxActive(newMax: int)
      requires Valid()
      modifies this, active, inactive
      ensures Valid() && max == newMax && (nr <= max || nr == old(nr))
      ensures FrontTaken(old(active[..]), old(inactive[..]), active[..], inactive[..])
      ensures newMax != 0 ==> nr >= max || NothingWaits()
    {
      max := newMax;
      if newMax == 0 { return; }
      var activated := true;
      while activated
        invariant Valid() && max == newMax && (nr <= max || nr == old(nr))
        invariant FrontTaken(old(active[..]), old(inactive[..]), active[..], inactive[..])
        invariant !activated ==> nr >= max || NothingWaits()
        decreases WaitingItems(inactive[..]), if activated then 1 else 0
      {
        ghost var was, counts := inactive[..], active[..];
        activated := FillRound();
        TakenTwice(old(active[..]), old(inactive[..]), counts, was, active[..], inactive[..]);
      }
    }
  }
}
