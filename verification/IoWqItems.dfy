/**
 No item of an io-wq gets lost: in every run without a mistaken cancel, an item that was enqueued, or
 linked behind one that ran, is on its list, in a worker's hands, begun, or was cancelled.
 */
module IoWqItems {
  import opened Maybe
  import opened IoWqList
  import opened IoWqHash
  import opened IoWqSafety

  /** The item waits on the list of an io-wq, or was begun there. */
  predicate KnownTo(s: State, q: nat, x: Item) {
    q < |s.wqs| && q < |s.begun| && (x in s.wqs[q].list || x in s.begun[q])
  }

  predicate InSomeHand(s: State, x: Item) { exists v :: 0 <= v < |s.workers| && InHand(s.workers[v], x) }

  predicate Located(s: State, x: Item) { InSomeHand(s, x) || exists q :: 0 <= q < |s.wqs| && KnownTo(s, q, x) }

  /** The step brings the item in. */
  predicate Gives(step: Step, x: Item) {
    (step.Enqueue? && step.x == x) || (step.Done? && step.linked == Some(x))
  }

  predicate Cancels(s: State, step: Step, x: Item) {
    step.Cancel? && step.q < |s.wqs| && step.i < |s.wqs[step.q].list| && s.wqs[step.q].list[step.i] == x
  }

  lemma InsertedHas(w: Wq, x: Item, y: Item)
    requires Ok(w.list, w.tail) && x !in w.list && (y in w.list || y == x)
    ensures y in Inserted(w.list, w.tail, x)
  {
    InsertOk(w.list, w.tail, x);
    assert y in multiset(w.list) + multiset{x};
  }

  lemma EnqueueKeeps(s: State, q: nat, x: Item, y: Item)
    requires Inv(s) && Enabled(s, Enqueue(q, x)) && (Located(s, y) || y == x)
    ensures Located(Apply(s, Enqueue(q, x)), y)
  {
    var t := Apply(s, Enqueue(q, x));
    assert Ok(s.wqs[q].list, s.wqs[q].tail) && ApartOne(s.wqs[q].list, s.begun[q], s.used);
    if y == x {
      InsertedHas(s.wqs[q], x, x);
      assert KnownTo(t, q, x);
    } else if !InSomeHand(s, y) {
      var g :| 0 <= g < |s.wqs| && KnownTo(s, g, y);
      if g == q && y in s.wqs[q].list { InsertedHas(s.wqs[q], x, y); }
      assert KnownTo(t, g, y);
    }
  }

  /** A hand that is not the worker's own stays. */
  lemma OtherHand(s: State, t: State, v: nat, y: Item)
    requires v < |s.workers| == |t.workers| && t.workers == s.workers[v := t.workers[v]]
    requires InSomeHand(s, y) && !InHand(s.workers[v], y)
    ensures InSomeHand(t, y)
  {
    var u :| 0 <= u < |s.workers| && InHand(s.workers[u], y);
    assert InHand(t.workers[u], y);
  }

  lemma TakeKeeps(s: State, v: nat, i: nat, y: Item)
    requires Shape(s) && Enabled(s, Take(v, i)) && Located(s, y)
    ensures Located(TakeStep(s, v, i), y)
  {
    var t, q := TakeStep(s, v, i), s.owner[v];
    if InSomeHand(s, y) {
      OtherHand(s, t, v, y);
    } else {
      var g :| 0 <= g < |s.wqs| && KnownTo(s, g, y);
      if g == q && y in s.wqs[q].list {
        TakenOrLeft(s.wqs[q].list, i, RunEnd(s.wqs[q], i), y);
        if y in s.wqs[q].list[i + 1..RunEnd(s.wqs[q], i) + 1] { assert InHand(t.workers[v], y); }
      }
      assert InSomeHand(t, y) || KnownTo(t, g, y);
    }
  }

  lemma TakenOrLeft(list: seq<Item>, i: nat, k: nat, y: Item)
    requires i <= k < |list| && y in list
    ensures y == list[i] || y in list[i + 1..k + 1] || y in Without(list, i, k)
  {
    assert list == list[..i] + [list[i]] + list[i + 1..k + 1] + list[k + 1..];
  }

  lemma DoneKeeps(s: State, v: nat, linked: Option<Item>, y: Item)
    requires Shape(s) && Enabled(s, Done(v, linked)) && (Located(s, y) || linked == Some(y))
    ensures Located(DoneStep(s, v, linked), y)
  {
    var t, w, q := DoneStep(s, v, linked), s.workers[v], s.owner[v];
    if InHand(w, y) {
      assert w.rest == [w.rest[0]] + w.rest[1..];
      if y == w.rest[0] { assert KnownTo(t, q, y); } else { assert InHand(t.workers[v], y); }
    } else if InSomeHand(s, y) {
      OtherHand(s, t, v, y);
    } else if linked == Some(y) {
      if w.cur.hash.Some? { assert InHand(t.workers[v], y); } else { assert KnownTo(t, q, y); }
    } else {
      var g :| 0 <= g < |s.wqs| && KnownTo(s, g, y);
      assert KnownTo(t, g, y);
    }
  }

  lemma ClearKeeps(s: State, v: nat, y: Item)
    requires Shape(s) && Enabled(s, Clear(v)) && Located(s, y)
    ensures Located(ClearStep(s, v), y)
  {
    var t, w, q := ClearStep(s, v), s.workers[v], s.owner[v];
    if InHand(w, y) {
      assert KnownTo(t, q, y);
    } else if InSomeHand(s, y) {
      OtherHand(s, t, v, y);
    } else {
      var g :| 0 <= g < |s.wqs| && KnownTo(s, g, y);
      assert KnownTo(t, g, y);
    }
  }

  lemma CancelKeeps(s: State, q: nat, i: nat, y: Item)
    requires Shape(s) && Enabled(s, Cancel(q, i)) && Located(s, y) && s.wqs[q].list[i] != y
    ensures Located(Apply(s, Cancel(q, i)), y)
  {
    var t := Apply(s, Cancel(q, i));
    if InSomeHand(s, y) {
      var u :| 0 <= u < |s.workers| && InHand(s.workers[u], y);
      assert InHand(t.workers[u], y);
    } else {
      var g :| 0 <= g < |s.wqs| && KnownTo(s, g, y);
      if g == q && y in s.wqs[q].list { TakenOrLeft(s.wqs[q].list, i, i, y); }
      assert KnownTo(t, g, y);
    }
  }

  lemma StepKeeps(s: State, step: Step, y: Item)
    requires Inv(s) && Enabled(s, step) && (Located(s, y) || Gives(step, y)) && !Cancels(s, step, y)
    ensures Located(Apply(s, step), y)
  {
    match step
    case Enqueue(q, x) => EnqueueKeeps(s, q, x, y);
    case Join(q, x, v) => NoJoin(s, q, x, v);
    case Take(v, i) => TakeKeeps(s, v, i, y);
    case Done(v, linked) => DoneKeeps(s, v, linked, y);
    case Clear(v) => ClearKeeps(s, v, y);
    case Cancel(q, i) => CancelKeeps(s, q, i, y);
  }

  /** In every careful run, an item given and not cancelled since is on a list, in a worker's hands or begun. */
  lemma {:induction false} NothingLost(trace: seq<State>, steps: seq<Step>, k: nat, i: nat, x: Item)
    requires IsRun(trace, steps) && Careful(trace, steps) && k < i < |trace| && Gives(steps[k], x)
    requires forall j :: k < j < i ==> !Cancels(trace[j], steps[j], x)
    ensures Located(trace[i], x)
    decreases i
  {
    RunInv(trace, steps, i - 1);
    assert IsStep(trace, steps, i - 1);
    if k < i - 1 { NothingLost(trace, steps, k, i - 1, x); }
    StepKeeps(trace[i - 1], steps[i - 1], x);
  }

  /** Nothing is there that was not given. */
  lemma {:induction false} GivenFirst(trace: seq<State>, steps: seq<Step>, i: nat, x: Item)
    requires IsRun(trace, steps) && Careful(trace, steps) && i < |trace| && x in trace[i].used
    ensures exists k :: 0 <= k < i && Gives(steps[k], x)
  {
    assert IsStep(trace, steps, i - 1);
    RunInv(trace, steps, i - 1);
    if x in trace[i - 1].used {
      GivenFirst(trace, steps, i - 1, x);
    } else {
      UsedStep(trace[i - 1], steps[i - 1], x);
    }
  }

  lemma UsedStep(s: State, step: Step, x: Item)
    requires Inv(s) && Enabled(s, step) && x !in s.used && x in Apply(s, step).used
    ensures Gives(step, x)
  {
    match step
    case Enqueue(_, _) =>
    case Join(q, y, v) => NoJoin(s, q, y, v);
    case Take(_, _) =>
    case Done(_, _) =>
    case Clear(_) =>
    case Cancel(_, _) =>
  }
}
