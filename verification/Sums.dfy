/** Sums of sequences of counts. */
module Sums {
  function Sum(a: seq<nat>): nat { if a == [] then 0 else a[0] + Sum(a[1..]) }

  lemma {:induction false} SumUpdate(a: seq<nat>, i: nat, v: nat)
    requires i < |a|
    ensures Sum(a[i := v]) == Sum(a) - a[i] + v
  {
    if i == 0 {
      assert a[0 := v][1..] == a[1..];
    } else {
      assert a[i := v][1..] == a[1..][i - 1 := v];
      SumUpdate(a[1..], i - 1, v);
    }
  }

  lemma {:induction false} SumPositive(a: seq<nat>)
    requires Sum(a) > 0
    ensures exists p :: 0 <= p < |a| && a[p] > 0
  {
    if a[0] == 0 {
      SumPositive(a[1..]);
      var p :| 0 <= p < |a[1..]| && a[1..][p] > 0;
      assert a[p + 1] > 0;
    }
  }

  lemma {:induction false} SumZero(a: seq<nat>)
    requires forall p :: 0 <= p < |a| ==> a[p] == 0
    ensures Sum(a) == 0
  {
    if a == [] {
    } else {
      SumZero(a[1..]);
    }
  }

  lemma {:induction false} SumAtMost(a: seq<nat>, b: seq<nat>)
    requires |a| == |b| && forall i :: 0 <= i < |a| ==> a[i] <= b[i]
    ensures Sum(a) <= Sum(b)
  {
    if a == [] {
    } else {
      SumAtMost(a[1..], b[1..]);
    }
  }

  lemma {:induction false} SumLess(a: seq<nat>, b: seq<nat>, k: nat)
    requires |a| == |b| && k < |a| && a[k] < b[k] && forall i :: 0 <= i < |a| ==> a[i] <= b[i]
    ensures Sum(a) < Sum(b)
  {
    if k == 0 {
      SumAtMost(a[1..], b[1..]);
    } else {
      SumLess(a[1..], b[1..], k - 1);
    }
  }
}
