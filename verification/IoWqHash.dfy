/**
 Hashed work across io-wqs that share one hash map: each worker takes a whole chain of one
 hash, and the map's bit for that hash is the lock that keeps every other worker, of any io-wq
 on the map, away from that hash.  Over every run items of one hash never run side by side,
 and within one io-wq they start in the order in which they were enqueued.
 */
module IoWqHash {
  import opened Maybe
  import opened IoWqList

  /**
   What a worker does: nothing, running an item with the rest of its chain to follow, or about
   to clear the bit of the chain it has finished, perhaps with a linked item to run next.
   */
  datatype Worker = Free | Busy(cur: Item, rest: seq<Item>) | Clearing(hash: nat, next: Option<Item>)

  datatype Wq = Wq(list: seq<Item>, tail: map<nat, Item>)

  /** order and begun are history: what was enqueued and not cancelled, and what was started. */
  datatype State = State(wqs: seq<Wq>, busy: set<nat>, owner: seq<nat>, workers: seq<Worker>,
                         used: set<Item>, order: seq<seq<Item>>, begun: seq<seq<Item>>)

  /**
   Done may come with an item linked behind the one that has run, which the worker goes on to run itself
   if it has nothing else and that item has no hash; otherwise the linked item is enqueued, by a step of its own.
   Join is the insertion of an item behind a tail that has left the list in a worker's hands, before
   that worker has looked behind it; after that such an insertion leaves the item on no list.
   */
  datatype Step =
    | Enqueue(q: nat, x: Item)
    | Join(q: nat, x: Item, v: nat)
    | Take(v: nat, i: nat)
    | Done(v: nat, linked: Option<Item>)
    | Clear(v: nat)
    | Cancel(q: nat, i: nat)

  predicate Shape(s: State) {
    && |s.order| == |s.begun| == |s.wqs| && |s.owner| == |s.workers|
    && (forall v :: 0 <= v < |s.owner| ==> s.owner[v] < |s.wqs|)
  }

  /** The item is the last in a worker's hands. */
  predicate Ends(w: Worker, x: Item) { w.Busy? && x == if w.rest == [] then w.cur else w.rest[|w.rest| - 1] }

  predicate Enabled(s: State, step: Step) {
    Shape(s) &&
    match step
    case Enqueue(q, x) => q < |s.wqs| && x !in s.used
    case Join(q, x, v) =>
      && q < |s.wqs| && x !in s.used && x.hash.Some? && x.hash.value in s.wqs[q].tail
      && v < |s.workers| && s.owner[v] == q && Ends(s.workers[v], s.wqs[q].tail[x.hash.value])
      && s.wqs[q].tail[x.hash.value] !in s.wqs[q].list
    case Take(v, i) =>
      && v < |s.workers| && s.workers[v].Free?
      && var w := s.wqs[s.owner[v]];
         i < |w.list| && Runnable(w.list[i], s.busy) && (w.list[i].hash.Some? ==> RunStart(w.list, w.tail, i))
    case Done(v, linked) =>
      && v < |s.workers| && s.workers[v].Busy?
      && (linked.Some? ==> s.workers[v].rest == [] && linked.value.hash.None? && linked.value !in s.used)
    case Clear(v) => v < |s.workers| && s.workers[v].Clearing?
    case Cancel(q, i) => q < |s.wqs| && i < |s.wqs[q].list|
  }

  /** Where the run that starts at i ends, as the tail table has it. */
  function RunEnd(w: Wq, i: nat): (k: nat)
    requires i < |w.list|
    ensures i <= k < |w.list|
  {
    if w.list[i].hash.None? || w.list[i].hash.value !in w.tail then i
    else
      var k := Index(w.list, w.tail[w.list[i].hash.value]);
      if i <= k < |w.list| then k else i
  }

  function Drop(list: seq<Item>, x: Item): seq<Item> {
    if list == [] then []
    else if list[0] == x then Drop(list[1..], x)
    else [list[0]] + Drop(list[1..], x)
  }

  function Begin(s: State, q: nat, x: Item): State
    requires q < |s.begun|
  {
    s.(begun := s.begun[q := s.begun[q] + [x]])
  }

  function TakeStep(s: State, v: nat, i: nat): State
    requires Enabled(s, Take(v, i))
  {
    var q := s.owner[v];
    var w := s.wqs[q];
    var k := RunEnd(w, i);
    var h := w.list[i].hash;
    Begin(s, q, w.list[i]).(
      wqs := s.wqs[q := Wq(Without(w.list, i, k), if h.Some? then w.tail - {h.value} else w.tail)],
      busy := if h.Some? then s.busy + {h.value} else s.busy,
      workers := s.workers[v := Busy(w.list[i], w.list[i + 1..k + 1])])
  }

  /** The inner loop of io_worker_handle_work() after one item has run. */
  function DoneStep(s: State, v: nat, linked: Option<Item>): State
    requires Enabled(s, Done(v, linked))
  {
    var w := s.workers[v];
    if w.rest != [] then Begin(s, s.owner[v], w.rest[0]).(workers := s.workers[v := Busy(w.rest[0], w.rest[1..])])
    else if w.cur.hash.Some? then
      s.(workers := s.workers[v := Clearing(w.cur.hash.value, linked)],
         used := if linked.Some? then s.used + {linked.value} else s.used)
    else if linked.Some? then
      Begin(s, s.owner[v], linked.value).(workers := s.workers[v := Busy(linked.value, [])],
        used := s.used + {linked.value})
    else s.(workers := s.workers[v := Free])
  }

  function ClearStep(s: State, v: nat): State
    requires Enabled(s, Clear(v))
  {
    var w := s.workers[v];
    var s' := s.(busy := s.busy - {w.hash});
    if w.next.None? then s'.(workers := s.workers[v := Free])
    else Begin(s', s.owner[v], w.next.value).(workers := s.workers[v := Busy(w.next.value, [])])
  }

  function Apply(s: State, step: Step): State
    requires Enabled(s, step)
  {
    match step
    case Enqueue(q, x) =>
      s.(wqs := s.wqs[q := Wq(Inserted(s.wqs[q].list, s.wqs[q].tail, x), InsertedTail(s.wqs[q].tail, x))],
         used := s.used + {x}, order := s.order[q := s.order[q] + [x]])
    case Join(q, x, v) =>
      s.(wqs := s.wqs[q := Wq(s.wqs[q].list, InsertedTail(s.wqs[q].tail, x))],
         workers := s.workers[v := Busy(s.workers[v].cur, s.workers[v].rest + [x])],
         used := s.used + {x}, order := s.order[q := s.order[q] + [x]])
    case Take(v, i) => TakeStep(s, v, i)
    case Done(v, linked) => DoneStep(s, v, linked)
    case Clear(v) => ClearStep(s, v)
    case Cancel(q, i) =>
      var w := s.wqs[q];
      s.(wqs := s.wqs[q := Wq(Without(w.list, i, i), RemovedTail(w.list, w.tail, i))],
         order := s.order[q := Drop(s.order[q], w.list[i])])
  }

  predicate Init(s: State) {
    && Shape(s) && s.busy == {} && s.used == {}
    && (forall q :: 0 <= q < |s.wqs| ==> s.wqs[q] == Wq([], map[]) && s.order[q] == [] && s.begun[q] == [])
    && (forall v :: 0 <= v < |s.workers| ==> s.workers[v].Free?)
  }

  predicate IsStep(trace: seq<State>, steps: seq<Step>, i: nat)
    requires i < |steps| && |trace| == |steps| + 1
  {
    Enabled(trace[i], steps[i]) && trace[i + 1] == Apply(trace[i], steps[i])
  }

  predicate IsRun(trace: seq<State>, steps: seq<Step>) {
    && |trace| == |steps| + 1 && Init(trace[0])
    && (forall i :: 0 <= i < |steps| ==> IsStep(trace, steps, i))
  }

  /** A cancel that takes an item without a hash for one of hash 0. */
  predicate Mistake(s: State, step: Step) {
    step.Cancel? && step.q < |s.wqs| && step.i < |s.wqs[step.q].list|
    && MistakenTail(s.wqs[step.q].list, s.wqs[step.q].tail, step.i)
  }

  /** No cancel of the run makes that mistake. */
  predicate Careful(trace: seq<State>, steps: seq<Step>)
    requires |trace| == |steps| + 1
  {
    forall i :: 0 <= i < |steps| ==> !Mistake(trace[i], steps[i])
  }

  // ---------------------------------------------------------------- the items of one hash

  function Filter(list: seq<Item>, h: nat): seq<Item> {
    if list == [] then []
    else if list[0].hash == Some(h) then [list[0]] + Filter(list[1..], h)
    else Filter(list[1..], h)
  }

  lemma {:induction false} FilterJoin(a: seq<Item>, b: seq<Item>, h: nat)
    ensures Filter(a + b, h) == Filter(a, h) + Filter(b, h)
  {
    if a == [] {
      assert a + b == b;
    } else {
      assert (a + b)[1..] == a[1..] + b;
      FilterJoin(a[1..], b, h);
    }
  }

  lemma {:induction false} FilterAbsent(list: seq<Item>, h: nat, x: Item)
    requires x !in list
    ensures x !in Filter(list, h)
  {
    if list == [] {
    } else {
      FilterAbsent(list[1..], h, x);
    }
  }

  lemma PlusNothing(a: seq<Item>, b: seq<Item>)
    ensures a + [] + b == a + b && a + b + [] == a + b
  {
  }

  lemma {:induction false} FilterAll(list: seq<Item>, h: nat)
    requires forall i :: 0 <= i < |list| ==> list[i].hash == Some(h)
    ensures Filter(list, h) == list
  {
    if list == [] {
    } else {
      FilterAll(list[1..], h);
    }
  }

  lemma {:induction false} FilterNone(list: seq<Item>, h: nat)
    requires forall i :: 0 <= i < |list| ==> list[i].hash != Some(h)
    ensures Filter(list, h) == []
  {
    if list == [] {
    } else {
      FilterNone(list[1..], h);
    }
  }

  lemma {:induction false} DropJoin(a: seq<Item>, b: seq<Item>, x: Item)
    ensures Drop(a + b, x) == Drop(a, x) + Drop(b, x)
  {
    if a == [] {
      assert a + b == b;
    } else {
      assert (a + b)[1..] == a[1..] + b;
      DropJoin(a[1..], b, x);
    }
  }

  lemma {:induction false} DropAbsent(list: seq<Item>, x: Item)
    requires x !in list
    ensures Drop(list, x) == list
  {
    if list == [] {
    } else {
      DropAbsent(list[1..], x);
    }
  }

  lemma {:induction false} FilterDrop(list: seq<Item>, x: Item, h: nat)
    ensures Filter(Drop(list, x), h) == Drop(Filter(list, h), x)
  {
    if list != [] {
      FilterDrop(list[1..], x, h);
      var rest := Drop(list[1..], x);
      if list[0] != x { assert ([list[0]] + rest)[1..] == rest; }
      if list[0].hash == Some(h) {
        var f := Filter(list[1..], h);
        assert ([list[0]] + f)[1..] == f;
      }
    }
  }

  /** Removing one of distinct items from a list is dropping it. */
  lemma WithoutIsDrop(list: seq<Item>, i: nat)
    requires Once(list) && i < |list|
    ensures Without(list, i, i) == Drop(list, list[i])
  {
    var a, x, b := list[..i], list[i], list[i + 1..];
    assert list == a + ([x] + b);
    forall j: nat | j < |list| && j != i ensures list[j] != x { OnceAt(list, i, j); }
    DropBetween(a, x, b);
  }

  lemma DropBetween(a: seq<Item>, x: Item, b: seq<Item>)
    requires x !in a && x !in b
    ensures Drop(a + ([x] + b), x) == a + b
  {
    DropJoin(a, [x] + b, x);
    assert ([x] + b)[1..] == b;
    DropAbsent(a, x);
    DropAbsent(b, x);
  }

  /** Behind the tail of a hash there is nothing of that hash. */
  lemma BehindTail(list: seq<Item>, tail: map<nat, Item>, h: nat, j: nat)
    requires Ok(list, tail) && h in tail && Index(list, tail[h]) < j < |list|
    ensures list[j].hash != Some(h)
  {
    if list[j].hash == Some(h) { RunToTail(list, tail, j); }
  }

  lemma BehindTailNone(list: seq<Item>, tail: map<nat, Item>, h: nat)
    requires Ok(list, tail) && h in tail
    ensures var k := Index(list, tail[h]); k < |list| && Filter(list[k + 1..], h) == []
  {
    var k := Index(list, tail[h]);
    forall j | k < j < |list|
      ensures list[j].hash != Some(h)
    {
      BehindTail(list, tail, h, j);
    }
    FilterNoneBehind(list, k, h);
  }

  lemma FilterNoneBehind(list: seq<Item>, k: nat, h: nat)
    requires k < |list| && forall j :: k < j < |list| ==> list[j].hash != Some(h)
    ensures Filter(list[k + 1..], h) == []
  {
    FilterNone(list[k + 1..], h);
  }

  /** An insertion puts the new item last among those of its hash and leaves the other hashes alone. */
  lemma InsertFilter(list: seq<Item>, tail: map<nat, Item>, x: Item, h: nat)
    requires Ok(list, tail) && x !in list
    ensures Filter(Inserted(list, tail, x), h) == Filter(list, h) + Filter([x], h)
  {
    if x.hash.None? || x.hash.value !in tail {
      FilterJoin(list, [x], h);
    } else {
      BehindTailNone(list, tail, x.hash.value);
      InsertFilterAt(list, Index(list, tail[x.hash.value]), x, h);
    }
  }

  lemma InsertFilterAt(list: seq<Item>, k: nat, x: Item, h: nat)
    requires k < |list| && x.hash.Some? && Filter(list[k + 1..], x.hash.value) == []
    ensures Filter(list[..k + 1] + [x] + list[k + 1..], h) == Filter(list, h) + Filter([x], h)
  {
    var a, b := list[..k + 1], list[k + 1..];
    assert list == a + b;
    FilterThree(a, [x], b, h);
    if x.hash != Some(h) {
      FilterNone([x], h);
      PlusNothing(Filter(a, h), Filter(b, h));
    } else {
      PlusNothing(Filter(a, h), Filter([x], h));
    }
  }

  lemma FilterCut(list: seq<Item>, i: nat, k: nat, h: nat)
    requires i <= k < |list|
    ensures Filter(list, h) == Filter(list[..i], h) + Filter(list[i..k + 1], h) + Filter(list[k + 1..], h)
    ensures Filter(Without(list, i, k), h) == Filter(list[..i], h) + Filter(list[k + 1..], h)
  {
    assert list == list[..i] + list[i..k + 1] + list[k + 1..];
    FilterThree(list[..i], list[i..k + 1], list[k + 1..], h);
  }

  lemma FilterThree(a: seq<Item>, m: seq<Item>, b: seq<Item>, h: nat)
    ensures Filter(a + m + b, h) == Filter(a, h) + Filter(m, h) + Filter(b, h)
    ensures Filter(a + b, h) == Filter(a, h) + Filter(b, h)
  {
    FilterJoin(a + m, b, h);
    FilterJoin(a, m, h);
    FilterJoin(a, b, h);
  }

  /** Cutting out a whole run takes exactly that hash's items. */
  lemma CutFilter(list: seq<Item>, i: nat, k: nat, h: nat)
    requires i <= k < |list| && (forall j :: i <= j <= k ==> list[j].hash == Some(h))
    requires forall j :: 0 <= j < |Without(list, i, k)| ==> Without(list, i, k)[j].hash != Some(h)
    ensures Filter(list, h) == list[i..k + 1] && Filter(Without(list, i, k), h) == []
  {
    FilterCut(list, i, k, h);
    FilterAll(list[i..k + 1], h);
    FilterNone(Without(list, i, k), h);
  }

  lemma CutFilterOther(list: seq<Item>, i: nat, k: nat, h: nat)
    requires i <= k < |list| && (forall j :: i <= j <= k ==> list[j].hash != Some(h))
    ensures Filter(Without(list, i, k), h) == Filter(list, h)
  {
    FilterCut(list, i, k, h);
    FilterNone(list[i..k + 1], h);
    PlusNothing(Filter(list[..i], h), Filter(list[k + 1..], h));
  }
}
