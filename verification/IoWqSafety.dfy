/**
 What every run of io-wqs on a shared hash map keeps: the bit of a hash is set exactly while
 one worker holds that chain, no two items of one hash run at the same time, and the items
 of a hash in one io-wq start in the order in which they were enqueued.
 */
module IoWqSafety {
  import opened Maybe
  import opened IoWqList
  import opened IoWqHash

  predicate Runs(w: Worker, h: nat) { w.Busy? && w.cur.hash == Some(h) }

  predicate Holds(w: Worker, h: nat) { Runs(w, h) || (w.Clearing? && w.hash == h) }

  predicate ChainOk(w: Worker) {
    match w
    case Free => true
    case Busy(cur, rest) =>
      (cur.hash.None? ==> rest == []) && forall i :: 0 <= i < |rest| ==> rest[i].hash == cur.hash
    case Clearing(_, next) => next.Some? ==> next.value.hash.None?
  }

  predicate Chains(workers: seq<Worker>) { forall v :: 0 <= v < |workers| ==> ChainOk(workers[v]) }

  predicate HeldBySome(workers: seq<Worker>, h: nat) { exists v :: 0 <= v < |workers| && Holds(workers[v], h) }

  /** The hash map is exactly the set of held chains, and each has one holder. */
  ghost predicate Locks(busy: set<nat>, workers: seq<Worker>) {
    && (forall h: nat :: h in busy <==> HeldBySome(workers, h))
    && (forall u, v, h: nat ::
          0 <= u < |workers| && 0 <= v < |workers| && Holds(workers[u], h) && Holds(workers[v], h) ==> u == v)
  }

  predicate Lists(wqs: seq<Wq>) { forall q :: 0 <= q < |wqs| ==> Ok(wqs[q].list, wqs[q].tail) }

  /** What waits on a list has not begun and is in no worker's hands. */
  predicate ApartOne(list: seq<Item>, begun: seq<Item>, used: set<Item>) {
    (forall x :: x in list ==> x in used && x !in begun) && (forall x :: x in begun ==> x in used)
  }

  predicate InHand(w: Worker, x: Item) {
    (w.Busy? && x in w.rest) || (w.Clearing? && w.next == Some(x))
  }

  ghost predicate ApartWorker(w: Worker, list: seq<Item>, used: set<Item>) {
    forall x :: InHand(w, x) ==> x in used && x !in list
  }

  ghost predicate Apart(s: State)
    requires Shape(s)
  {
    && (forall q :: 0 <= q < |s.wqs| ==> ApartOne(s.wqs[q].list, s.begun[q], s.used))
    && (forall v :: 0 <= v < |s.workers| ==> ApartWorker(s.workers[v], s.wqs[s.owner[v]].list, s.used))
  }

  /** What was enqueued of a hash: begun, then in a worker's hands, then pending. */
  predicate Adds(list: seq<Item>, order: seq<Item>, begun: seq<Item>, h: nat, rest: seq<Item>) {
    Filter(order, h) == Filter(begun, h) + rest + Filter(list, h)
  }

  predicate Idle(workers: seq<Worker>, owner: seq<nat>, q: nat, h: nat)
    requires |owner| == |workers|
  {
    forall v :: 0 <= v < |workers| && owner[v] == q ==> !Runs(workers[v], h)
  }

  predicate Books(workers: seq<Worker>, owner: seq<nat>, q: nat, h: nat, list: seq<Item>, order: seq<Item>,
                  begun: seq<Item>)
    requires |owner| == |workers|
  {
    && (forall v :: 0 <= v < |workers| && owner[v] == q && Runs(workers[v], h) ==>
       Adds(list, order, begun, h, workers[v].rest))
    && (Idle(workers, owner, q, h) ==> Adds(list, order, begun, h, []))
  }

  predicate BooksOf(s: State, q: nat, h: nat)
    requires Shape(s) && q < |s.wqs|
  {
    Books(s.workers, s.owner, q, h, s.wqs[q].list, s.order[q], s.begun[q])
  }

  ghost predicate Balanced(s: State)
    requires Shape(s)
  {
    forall q: nat, h: nat :: q < |s.wqs| ==> BooksOf(s, q, h)
  }

  ghost predicate Inv(s: State) {
    Shape(s) && Chains(s.workers) && Locks(s.busy, s.workers) && Lists(s.wqs) && Apart(s) && Balanced(s)
  }

  // ---------------------------------------------------------------- locks

  /** Worker v drops what it held and takes nothing that is set. */
  lemma LocksMove(busy: set<nat>, workers: seq<Worker>, v: nat, w: Worker, busy': set<nat>)
    requires Locks(busy, workers) && v < |workers|
    requires forall h: nat :: Holds(w, h) ==> Holds(workers[v], h) || h !in busy
    requires forall h: nat :: h in busy' <==> Holds(w, h) || (h in busy && !Holds(workers[v], h))
    ensures Locks(busy', workers[v := w])
  {
    var workers' := workers[v := w];
    forall h: nat
      ensures h in busy' <==> HeldBySome(workers', h)
    {
      if Holds(w, h) { assert Holds(workers'[v], h); }
      if h in busy && !Holds(workers[v], h) {
        var u :| 0 <= u < |workers| && Holds(workers[u], h);
        assert Holds(workers'[u], h);
      }
      forall u | 0 <= u < |workers'| && Holds(workers'[u], h)
        ensures h in busy'
      {
        if u != v { assert Holds(workers[u], h) && HeldBySome(workers, h); }
      }
    }
    forall a, b, h: nat | 0 <= a < |workers'| && 0 <= b < |workers'| && Holds(workers'[a], h) && Holds(workers'[b], h)
      ensures a == b
    {
      if a != b {
        var o := if a == v then b else a;
        assert o != v ==> Holds(workers[o], h) && HeldBySome(workers, h);
      }
    }
  }

  // ---------------------------------------------------------------- books

  /** Another io-wq's books do not look at this one's worker. */
  lemma BooksElsewhere(s: State, v: nat, w: Worker, q: nat, h: nat)
    requires Shape(s) && v < |s.workers| && q < |s.wqs| && q != s.owner[v] && BooksOf(s, q, h)
    ensures Books(s.workers[v := w], s.owner, q, h, s.wqs[q].list, s.order[q], s.begun[q])
  {
    var workers' := s.workers[v := w];
    if Idle(workers', s.owner, q, h) {
      forall u | 0 <= u < |s.workers| && s.owner[u] == q
        ensures !Runs(s.workers[u], h)
      {
        assert workers'[u] == s.workers[u];
      }
    }
  }

  /** A hash that worker v runs neither before nor after. */
  lemma BooksOther(s: State, v: nat, w: Worker, q: nat, h: nat, list: seq<Item>, begun: seq<Item>)
    requires Shape(s) && v < |s.workers| && q < |s.wqs| && BooksOf(s, q, h)
    requires !Runs(w, h) && !Runs(s.workers[v], h)
    requires Filter(list, h) == Filter(s.wqs[q].list, h) && Filter(begun, h) == Filter(s.begun[q], h)
    ensures Books(s.workers[v := w], s.owner, q, h, list, s.order[q], begun)
  {
    var workers' := s.workers[v := w];
    if Idle(workers', s.owner, q, h) {
      forall u | 0 <= u < |s.workers| && s.owner[u] == q
        ensures !Runs(s.workers[u], h)
      {
        assert u != v ==> workers'[u] == s.workers[u];
      }
    }
  }

  /** The hash that worker v runs afterwards. */
  lemma BooksRuns(busy: set<nat>, workers: seq<Worker>, owner: seq<nat>, v: nat, h: nat, list: seq<Item>,
                  order: seq<Item>, begun: seq<Item>)
    requires |owner| == |workers| && Locks(busy, workers) && v < |workers| && Runs(workers[v], h)
    requires Adds(list, order, begun, h, workers[v].rest)
    ensures Books(workers, owner, owner[v], h, list, order, begun)
  {
    forall u | 0 <= u < |workers| && Runs(workers[u], h)
      ensures u == v
    {
      assert Holds(workers[u], h) && Holds(workers[v], h);
    }
  }

  /** The hash that nobody runs any more. */
  lemma BooksIdle(busy: set<nat>, workers: seq<Worker>, owner: seq<nat>, q: nat, h: nat, list: seq<Item>,
                  order: seq<Item>, begun: seq<Item>)
    requires |owner| == |workers| && Adds(list, order, begun, h, [])
    requires Idle(workers, owner, q, h)
    ensures Books(workers, owner, q, h, list, order, begun)
  {
  }

  // ---------------------------------------------------------------- enqueue

  lemma EnqueueBooks(s: State, q: nat, x: Item, h: nat)
    requires Shape(s) && q < |s.wqs| && x !in s.wqs[q].list && Ok(s.wqs[q].list, s.wqs[q].tail) && BooksOf(s, q, h)
    ensures Books(s.workers, s.owner, q, h, Inserted(s.wqs[q].list, s.wqs[q].tail, x), s.order[q] + [x], s.begun[q])
  {
    InsertFilter(s.wqs[q].list, s.wqs[q].tail, x, h);
    FilterJoin(s.order[q], [x], h);
  }

  lemma EnqueueOk(s: State, q: nat, x: Item)
    requires Inv(s) && Enabled(s, Enqueue(q, x))
    ensures Inv(Apply(s, Enqueue(q, x)))
  {
    var w, s' := s.wqs[q], Apply(s, Enqueue(q, x));
    assert ApartOne(w.list, s.begun[q], s.used);
    InsertOk(w.list, w.tail, x);
    EnqueueApart(s, q, x);
    forall p: nat, h: nat | p < |s'.wqs|
      ensures BooksOf(s', p, h)
    {
      assert BooksOf(s, p, h);
      if p == q { EnqueueBooks(s, q, x, h); }
    }
  }

  lemma EnqueueApart(s: State, q: nat, x: Item)
    requires Inv(s) && Enabled(s, Enqueue(q, x))
    ensures Apart(Apply(s, Enqueue(q, x)))
  {
    var w, s' := s.wqs[q], Apply(s, Enqueue(q, x));
    assert forall y :: y in s'.wqs[q].list ==> y in w.list || y == x;
    forall p | 0 <= p < |s'.wqs|
      ensures ApartOne(s'.wqs[p].list, s'.begun[p], s'.used)
    {
      assert ApartOne(s.wqs[p].list, s.begun[p], s.used);
    }
    forall v | 0 <= v < |s'.workers|
      ensures ApartWorker(s'.workers[v], s'.wqs[s'.owner[v]].list, s'.used)
    {
      assert ApartWorker(s.workers[v], s.wqs[s.owner[v]].list, s.used);
    }
  }

  // ---------------------------------------------------------------- cancel

  lemma CancelOk(s: State, q: nat, i: nat)
    requires Inv(s) && Enabled(s, Cancel(q, i)) && !Mistake(s, Cancel(q, i))
    ensures Inv(Apply(s, Cancel(q, i)))
  {
    var w, s' := s.wqs[q], Apply(s, Cancel(q, i));
    RemoveKeeps(w.list, w.tail, i);
    CancelApart(s, q, i);
    forall p: nat, h: nat | p < |s'.wqs|
      ensures BooksOf(s', p, h)
    {
      assert BooksOf(s, p, h);
      if p == q { CancelBooks(s, q, i, h); }
    }
  }

  lemma CancelApart(s: State, q: nat, i: nat)
    requires Inv(s) && Enabled(s, Cancel(q, i))
    ensures Apart(Apply(s, Cancel(q, i)))
  {
    var w, s' := s.wqs[q], Apply(s, Cancel(q, i));
    WithoutOnce(w.list, i, i);
    forall p | 0 <= p < |s'.wqs|
      ensures ApartOne(s'.wqs[p].list, s'.begun[p], s'.used)
    {
      assert ApartOne(s.wqs[p].list, s.begun[p], s.used);
    }
    forall v | 0 <= v < |s'.workers|
      ensures ApartWorker(s'.workers[v], s'.wqs[s'.owner[v]].list, s'.used)
    {
      assert ApartWorker(s.workers[v], s.wqs[s.owner[v]].list, s.used);
    }
  }

  /** Dropping the cancelled item from both sides of an account. */
  lemma AddsDrop(list: seq<Item>, order: seq<Item>, begun: seq<Item>, h: nat, rest: seq<Item>, i: nat)
    requires Once(list) && i < |list| && Adds(list, order, begun, h, rest) && list[i] !in begun && list[i] !in rest
    ensures Adds(Without(list, i, i), Drop(order, list[i]), begun, h, rest)
  {
    var x := list[i];
    WithoutIsDrop(list, i);
    FilterDrop(list, x, h);
    FilterDrop(order, x, h);
    DropJoin(Filter(begun, h) + rest, Filter(list, h), x);
    FilterAbsent(begun, h, x);
    DropAbsent(Filter(begun, h) + rest, x);
  }

  lemma NotInRest(w: Worker, list: seq<Item>, used: set<Item>, x: Item)
    requires ApartWorker(w, list, used) && w.Busy? && x in list
    ensures x !in w.rest
  {
    assert !InHand(w, x);
  }

  lemma CancelBooks(s: State, q: nat, i: nat, h: nat)
    requires Inv(s) && Enabled(s, Cancel(q, i)) && BooksOf(s, q, h)
    ensures BooksOf(Apply(s, Cancel(q, i)), q, h)
  {
    var w, s' := s.wqs[q], Apply(s, Cancel(q, i));
    var x := w.list[i];
    assert ApartOne(w.list, s.begun[q], s.used);
    forall v | 0 <= v < |s.workers| && s.owner[v] == q && Runs(s.workers[v], h)
      ensures Adds(s'.wqs[q].list, s'.order[q], s'.begun[q], h, s.workers[v].rest)
    {
      NotInRest(s.workers[v], w.list, s.used, x);
      AddsDrop(w.list, s.order[q], s.begun[q], h, s.workers[v].rest, i);
    }
    if Idle(s.workers, s.owner, q, h) { AddsDrop(w.list, s.order[q], s.begun[q], h, [], i); }
  }

  // ---------------------------------------------------------------- workers

  lemma {:induction false} BegunOther(begun: seq<Item>, x: Item, h: nat)
    requires x.hash != Some(h)
    ensures Filter(begun + [x], h) == Filter(begun, h)
  {
    FilterJoin(begun, [x], h);
    FilterNone([x], h);
    assert Filter(begun, h) + [] == Filter(begun, h);
  }

  lemma BegunSame(begun: seq<Item>, x: Item, h: nat)
    requires x.hash == Some(h)
    ensures Filter(begun + [x], h) == Filter(begun, h) + [x]
  {
    FilterJoin(begun, [x], h);
    FilterAll([x], h);
  }

  /** The worker's move leaves the books of every other io-wq alone. */
  lemma BalancedMove(s: State, s': State, v: nat)
    requires Shape(s) && Shape(s') && Balanced(s) && v < |s.workers|
    requires s'.owner == s.owner && s'.order == s.order && |s'.workers| == |s.workers|
    requires s'.workers == s.workers[v := s'.workers[v]]
    requires |s'.wqs| == |s.wqs| && s'.wqs == s.wqs[s.owner[v] := s'.wqs[s.owner[v]]]
    requires s'.begun == s.begun[s.owner[v] := s'.begun[s.owner[v]]]
    requires forall h: nat :: BooksOf(s', s.owner[v], h)
    ensures Balanced(s')
  {
    forall q: nat, h: nat | q < |s'.wqs|
      ensures BooksOf(s', q, h)
    {
      assert BooksOf(s, q, h);
      if q != s.owner[v] { BooksElsewhere(s, v, s'.workers[v], q, h); }
    }
  }

  /** A worker's move that takes from the list and begins one item keeps what is apart apart. */
  lemma ApartMove(s: State, s': State, v: nat)
    requires Shape(s) && Shape(s') && Apart(s) && v < |s.workers|
    requires s'.owner == s.owner && |s'.workers| == |s.workers| && s'.workers == s.workers[v := s'.workers[v]]
    requires |s'.wqs| == |s.wqs| && s'.wqs == s.wqs[s.owner[v] := s'.wqs[s.owner[v]]]
    requires s'.begun == s.begun[s.owner[v] := s'.begun[s.owner[v]]]
    requires s.used <= s'.used
    requires forall x :: x in s'.wqs[s.owner[v]].list ==> x in s.wqs[s.owner[v]].list && x !in s'.begun[s.owner[v]]
    requires forall x :: x in s'.begun[s.owner[v]] ==> x in s'.used
    requires ApartWorker(s'.workers[v], s'.wqs[s.owner[v]].list, s'.used)
    ensures Apart(s')
  {
    forall q | 0 <= q < |s'.wqs|
      ensures ApartOne(s'.wqs[q].list, s'.begun[q], s'.used)
    {
      assert ApartOne(s.wqs[q].list, s.begun[q], s.used);
    }
    forall u | 0 <= u < |s'.workers|
      ensures ApartWorker(s'.workers[u], s'.wqs[s'.owner[u]].list, s'.used)
    {
      assert ApartWorker(s.workers[u], s.wqs[s.owner[u]].list, s.used);
    }
  }

  // ---------------------------------------------------------------- take

  /** What is cut out is not in what is left. */
  lemma CutGone(list: seq<Item>, i: nat, k: nat)
    requires Once(list) && i <= k < |list|
    ensures forall j :: i <= j <= k ==> list[j] !in Without(list, i, k)
  {
    var left := Without(list, i, k);
    forall j, m | i <= j <= k && 0 <= m < |left|
      ensures left[m] != list[j]
    {
      var n := if m < i then m else m - i + k + 1;
      assert left[m] == list[n];
      OnceAt(list, n, j);
    }
  }

  lemma TakenApart(list: seq<Item>, i: nat, k: nat, used: set<Item>)
    requires Once(list) && i <= k < |list| && forall x :: x in list ==> x in used
    ensures ApartWorker(Busy(list[i], list[i + 1..k + 1]), Without(list, i, k), used)
  {
    CutGone(list, i, k);
    forall x | InHand(Busy(list[i], list[i + 1..k + 1]), x)
      ensures x in used && x !in Without(list, i, k)
    {
      var j :| i < j <= k && list[j] == x;
    }
  }

  lemma TakeApart(s: State, v: nat, i: nat)
    requires Inv(s) && Enabled(s, Take(v, i))
    ensures Apart(TakeStep(s, v, i))
  {
    var s', q := TakeStep(s, v, i), s.owner[v];
    var w := s.wqs[q];
    var k := RunEnd(w, i);
    var list' := Without(w.list, i, k);
    WithoutOnce(w.list, i, k);
    assert ApartOne(w.list, s.begun[q], s.used);
    CutGone(w.list, i, k);
    TakenApart(w.list, i, k, s.used);
    ApartMove(s, s', v);
  }

  lemma TakeOneBooks(s: State, v: nat, i: nat, h: nat)
    requires Inv(s) && Enabled(s, Take(v, i)) && s.wqs[s.owner[v]].list[i].hash != Some(h)
    requires forall j :: i <= j <= RunEnd(s.wqs[s.owner[v]], i) ==> s.wqs[s.owner[v]].list[j].hash != Some(h)
    ensures BooksOf(TakeStep(s, v, i), s.owner[v], h)
  {
    var s', q := TakeStep(s, v, i), s.owner[v];
    var w := s.wqs[q];
    assert BooksOf(s, q, h);
    CutFilterOther(w.list, i, RunEnd(w, i), h);
    BegunOther(s.begun[q], w.list[i], h);
    BooksOther(s, v, s'.workers[v], q, h, s'.wqs[q].list, s'.begun[q]);
  }

  lemma RunIsFilter(w: Wq, i: nat, h: nat)
    requires Ok(w.list, w.tail) && i < |w.list| && RunStart(w.list, w.tail, i) && w.list[i].hash == Some(h)
    ensures var k := RunEnd(w, i);
            Filter(w.list, h) == w.list[i..k + 1] && Filter(Without(w.list, i, k), h) == []
  {
    CutOk(w.list, w.tail, i);
    CutFilter(w.list, i, RunEnd(w, i), h);
  }

  lemma RunAdds(w: Wq, order: seq<Item>, begun: seq<Item>, i: nat, h: nat)
    requires Ok(w.list, w.tail) && i < |w.list| && RunStart(w.list, w.tail, i) && w.list[i].hash == Some(h)
    requires Adds(w.list, order, begun, h, [])
    ensures var k := RunEnd(w, i);
            Adds(Without(w.list, i, k), order, begun + [w.list[i]], h, w.list[i + 1..k + 1])
  {
    RunIsFilter(w, i, h);
    var list, k := w.list, RunEnd(w, i);
    SplitRun(list, i, k);
    AddsTake(list, Without(list, i, k), order, begun, h, list[i], list[i + 1..k + 1]);
  }

  lemma SplitRun(list: seq<Item>, i: nat, k: nat)
    requires i <= k < |list|
    ensures list[i..k + 1] == [list[i]] + list[i + 1..k + 1]
  {
  }

  lemma ClearMeansIdle(busy: set<nat>, workers: seq<Worker>, owner: seq<nat>, q: nat, h: nat)
    requires Locks(busy, workers) && |owner| == |workers| && h !in busy
    ensures Idle(workers, owner, q, h)
  {
    assert !HeldBySome(workers, h);
    forall u | 0 <= u < |workers|
      ensures !Runs(workers[u], h)
    {
      assert !Holds(workers[u], h);
    }
  }

  lemma TakeRunBooks(s: State, v: nat, i: nat, h: nat)
    requires Inv(s) && Enabled(s, Take(v, i)) && s.wqs[s.owner[v]].list[i].hash == Some(h)
    requires Locks(TakeStep(s, v, i).busy, TakeStep(s, v, i).workers)
    ensures BooksOf(TakeStep(s, v, i), s.owner[v], h)
  {
    var s', q := TakeStep(s, v, i), s.owner[v];
    assert BooksOf(s, q, h);
    ClearMeansIdle(s.busy, s.workers, s.owner, q, h);
    RunAdds(s.wqs[q], s.order[q], s.begun[q], i, h);
    BooksRuns(s'.busy, s'.workers, s'.owner, v, h, s'.wqs[q].list, s'.order[q], s'.begun[q]);
  }

  lemma Regroup(a: seq<Item>, x: Item, rest: seq<Item>, z: seq<Item>)
    ensures a + ([x] + rest) + z == a + [x] + rest + z
    ensures a + [] + ([x] + rest) == a + [x] + rest + []
  {
  }

  /** Beginning the next item of a chain moves it across the account. */
  lemma AddsNext(list: seq<Item>, order: seq<Item>, begun: seq<Item>, h: nat, x: Item, rest: seq<Item>)
    requires Adds(list, order, begun, h, [x] + rest) && x.hash == Some(h)
    ensures Adds(list, order, begun + [x], h, rest)
  {
    BegunSame(begun, x, h);
    Regroup(Filter(begun, h), x, rest, Filter(list, h));
  }

  /** Cutting the whole run out and beginning its first item. */
  lemma AddsTake(list: seq<Item>, list': seq<Item>, order: seq<Item>, begun: seq<Item>, h: nat, x: Item,
                 rest: seq<Item>)
    requires Adds(list, order, begun, h, []) && Filter(list, h) == [x] + rest && Filter(list', h) == []
    requires x.hash == Some(h)
    ensures Adds(list', order, begun + [x], h, rest)
  {
    BegunSame(begun, x, h);
    Regroup(Filter(begun, h), x, rest, []);
  }

  lemma TakeLocks(s: State, v: nat, i: nat)
    requires Inv(s) && Enabled(s, Take(v, i))
    ensures Locks(TakeStep(s, v, i).busy, TakeStep(s, v, i).workers)
  {
    var s' := TakeStep(s, v, i);
    LocksMove(s.busy, s.workers, v, s'.workers[v], s'.busy);
  }

  lemma TakeLists(w: Wq, i: nat)
    requires Ok(w.list, w.tail) && i < |w.list| && (w.list[i].hash.Some? ==> RunStart(w.list, w.tail, i))
    ensures var k, h := RunEnd(w, i), w.list[i].hash;
            && Ok(Without(w.list, i, k), if h.Some? then w.tail - {h.value} else w.tail)
            && ChainOk(Busy(w.list[i], w.list[i + 1..k + 1]))
            && (forall g: nat :: h != Some(g) ==> forall j :: i <= j <= k ==> w.list[j].hash != Some(g))
  {
    if w.list[i].hash.None? {
      TakeOneOk(w.list, w.tail, i);
    } else {
      CutOk(w.list, w.tail, i);
    }
  }

  lemma TakeBalanced(s: State, v: nat, i: nat)
    requires Inv(s) && Enabled(s, Take(v, i)) && Locks(TakeStep(s, v, i).busy, TakeStep(s, v, i).workers)
    ensures Balanced(TakeStep(s, v, i))
  {
    var s', q := TakeStep(s, v, i), s.owner[v];
    TakeLists(s.wqs[q], i);
    forall h: nat
      ensures BooksOf(s', q, h)
    {
      if s.wqs[q].list[i].hash == Some(h) { TakeRunBooks(s, v, i, h); } else { TakeOneBooks(s, v, i, h); }
    }
    BalancedMove(s, s', v);
  }

  lemma TakeShape(s: State, v: nat, i: nat)
    requires Shape(s) && Chains(s.workers) && Lists(s.wqs) && Enabled(s, Take(v, i))
    ensures var s' := TakeStep(s, v, i); Shape(s') && Chains(s'.workers) && Lists(s'.wqs)
  {
    TakeLists(s.wqs[s.owner[v]], i);
  }

  lemma TakeOk(s: State, v: nat, i: nat)
    requires Inv(s) && Enabled(s, Take(v, i))
    ensures Inv(TakeStep(s, v, i))
  {
    TakeShape(s, v, i);
    TakeLocks(s, v, i);
    TakeApart(s, v, i);
    TakeBalanced(s, v, i);
  }

  // ---------------------------------------------------------------- done

  lemma NextBooks(s: State, v: nat, linked: Option<Item>, h: nat)
    requires Inv(s) && Enabled(s, Done(v, linked)) && s.workers[v].rest != []
    requires Locks(DoneStep(s, v, linked).busy, DoneStep(s, v, linked).workers)
    ensures BooksOf(DoneStep(s, v, linked), s.owner[v], h)
  {
    var s', q, w := DoneStep(s, v, linked), s.owner[v], s.workers[v];
    var x := w.rest[0];
    assert ChainOk(w) && BooksOf(s, q, h);
    if x.hash == Some(h) {
      assert w.rest == [x] + w.rest[1..];
      AddsNext(s.wqs[q].list, s.order[q], s.begun[q], h, x, w.rest[1..]);
      BooksRuns(s'.busy, s'.workers, s'.owner, v, h, s'.wqs[q].list, s'.order[q], s'.begun[q]);
    } else {
      BegunOther(s.begun[q], x, h);
      BooksOther(s, v, s'.workers[v], q, h, s.wqs[q].list, s'.begun[q]);
    }
  }

  lemma NextOk(s: State, v: nat, linked: Option<Item>)
    requires Inv(s) && Enabled(s, Done(v, linked)) && s.workers[v].rest != []
    ensures Inv(DoneStep(s, v, linked))
  {
    var s', q, w := DoneStep(s, v, linked), s.owner[v], s.workers[v];
    assert ChainOk(w) && ApartWorker(w, s.wqs[q].list, s.used) && ApartOne(s.wqs[q].list, s.begun[q], s.used);
    assert InHand(w, w.rest[0]);
    forall y | InHand(s'.workers[v], y) ensures InHand(w, y) { }
    LocksMove(s.busy, s.workers, v, s'.workers[v], s.busy);
    ApartMove(s, s', v);
    forall h: nat ensures BooksOf(s', q, h) { NextBooks(s, v, linked, h); }
    BalancedMove(s, s', v);
  }

  lemma ChainEndsOk(s: State, v: nat, linked: Option<Item>)
    requires Inv(s) && Enabled(s, Done(v, linked)) && s.workers[v].rest == [] && s.workers[v].cur.hash.Some?
    ensures Inv(DoneStep(s, v, linked))
  {
    var s', q, w := DoneStep(s, v, linked), s.owner[v], s.workers[v];
    LocksMove(s.busy, s.workers, v, s'.workers[v], s.busy);
    assert ApartOne(s.wqs[q].list, s.begun[q], s.used);
    ApartMove(s, s', v);
    forall h: nat
      ensures BooksOf(s', q, h)
    {
      assert BooksOf(s, q, h);
      if Runs(w, h) {
        forall u | 0 <= u < |s'.workers|
          ensures !Runs(s'.workers[u], h)
        {
          assert u != v ==> s'.workers[u] == s.workers[u];
          assert u != v && Runs(s.workers[u], h) ==> Holds(s.workers[u], h) && Holds(s.workers[v], h);
        }
        BooksIdle(s'.busy, s'.workers, s'.owner, q, h, s'.wqs[q].list, s'.order[q], s'.begun[q]);
      } else {
        BooksOther(s, v, s'.workers[v], q, h, s.wqs[q].list, s.begun[q]);
      }
    }
    BalancedMove(s, s', v);
  }

  /** A worker that runs no chain goes on to an item that is not hashed, or stops. */
  lemma PlainOk(s: State, s': State, v: nat, next: Option<Item>)
    requires Inv(s) && v < |s.workers| && (forall h: nat :: !Runs(s.workers[v], h))
    requires s' == (if next.None? then s else Begin(s, s.owner[v], next.value)).(
                     workers := s.workers[v := if next.None? then Free else Busy(next.value, [])],
                     busy := s'.busy, used := s'.used)
    requires s.used <= s'.used
    requires next.Some? ==> next.value.hash.None? && next.value in s'.used && next.value !in s.wqs[s.owner[v]].list
    requires Locks(s'.busy, s'.workers)
    ensures Inv(s')
  {
    var q := s.owner[v];
    assert ApartOne(s.wqs[q].list, s.begun[q], s.used);
    ApartMove(s, s', v);
    forall h: nat
      ensures BooksOf(s', q, h)
    {
      assert BooksOf(s, q, h);
      if next.Some? { BegunOther(s.begun[q], next.value, h); }
      BooksOther(s, v, s'.workers[v], q, h, s.wqs[q].list, s'.begun[q]);
    }
    BalancedMove(s, s', v);
  }

  lemma DoneOk(s: State, v: nat, linked: Option<Item>)
    requires Inv(s) && Enabled(s, Done(v, linked))
    ensures Inv(DoneStep(s, v, linked))
  {
    var s', w := DoneStep(s, v, linked), s.workers[v];
    if w.rest != [] {
      NextOk(s, v, linked);
    } else if w.cur.hash.Some? {
      ChainEndsOk(s, v, linked);
    } else {
      LocksMove(s.busy, s.workers, v, s'.workers[v], s.busy);
      assert ApartOne(s.wqs[s.owner[v]].list, s.begun[s.owner[v]], s.used);
      PlainOk(s, s', v, linked);
    }
  }

  lemma ClearOk(s: State, v: nat)
    requires Inv(s) && Enabled(s, Clear(v))
    ensures Inv(ClearStep(s, v))
  {
    var s', w := ClearStep(s, v), s.workers[v];
    assert ChainOk(w) && ApartWorker(w, s.wqs[s.owner[v]].list, s.used);
    if w.next.Some? { assert InHand(w, w.next.value); }
    LocksMove(s.busy, s.workers, v, s'.workers[v], s'.busy);
    PlainOk(s, s', v, w.next);
  }

  // ---------------------------------------------------------------- every run

  /** As long as the tails are on the lists, nothing joins a worker's chain. */
  lemma NoJoin(s: State, q: nat, x: Item, v: nat)
    requires Shape(s) && Lists(s.wqs)
    ensures !Enabled(s, Join(q, x, v))
  {
    if q < |s.wqs| { assert Ok(s.wqs[q].list, s.wqs[q].tail); }
  }

  lemma StepOk(s: State, step: Step)
    requires Inv(s) && Enabled(s, step) && !Mistake(s, step)
    ensures Inv(Apply(s, step))
  {
    match step
    case Enqueue(q, x) => EnqueueOk(s, q, x);
    case Join(q, x, v) => NoJoin(s, q, x, v);
    case Take(v, i) => TakeOk(s, v, i);
    case Done(v, linked) => DoneOk(s, v, linked);
    case Clear(v) => ClearOk(s, v);
    case Cancel(q, i) => CancelOk(s, q, i);
  }

  lemma {:induction false} RunInv(trace: seq<State>, steps: seq<Step>, i: nat)
    requires IsRun(trace, steps) && Careful(trace, steps) && i < |trace|
    ensures Inv(trace[i])
  {
    if i > 0 {
      RunInv(trace, steps, i - 1);
      assert IsStep(trace, steps, i - 1);
      StepOk(trace[i - 1], steps[i - 1]);
    }
  }

  /** Two workers, of whatever io-wqs, never run items of the same hash at the same time. */
  lemma NeverTogether(trace: seq<State>, steps: seq<Step>, i: nat, u: nat, v: nat, h: nat)
    requires IsRun(trace, steps) && Careful(trace, steps) && i < |trace|
    requires u < |trace[i].workers| && v < |trace[i].workers| && Runs(trace[i].workers[u], h)
    requires Runs(trace[i].workers[v], h)
    ensures u == v && h in trace[i].busy
  {
    RunInv(trace, steps, i);
    assert Holds(trace[i].workers[u], h) && Holds(trace[i].workers[v], h) && HeldBySome(trace[i].workers, h);
  }

  /** A bit is set exactly while one worker holds that chain. */
  lemma BitIsHeld(trace: seq<State>, steps: seq<Step>, i: nat, h: nat)
    requires IsRun(trace, steps) && Careful(trace, steps) && i < |trace|
    ensures h in trace[i].busy <==> exists v :: 0 <= v < |trace[i].workers| && Holds(trace[i].workers[v], h)
  {
    RunInv(trace, steps, i);
    assert h in trace[i].busy <==> HeldBySome(trace[i].workers, h);
  }

  /** In one io-wq the items of a hash begin in the order in which they were enqueued. */
  lemma BegunInOrder(trace: seq<State>, steps: seq<Step>, i: nat, q: nat, h: nat)
    requires IsRun(trace, steps) && Careful(trace, steps) && i < |trace|
    requires q < |trace[i].begun| && q < |trace[i].order|
    ensures Filter(trace[i].begun[q], h) <= Filter(trace[i].order[q], h)
  {
    RunInv(trace, steps, i);
    var s := trace[i];
    assert BooksOf(s, q, h);
    if !Idle(s.workers, s.owner, q, h) {
      var v :| 0 <= v < |s.workers| && s.owner[v] == q && Runs(s.workers[v], h);
      assert Filter(s.begun[q], h) <= Filter(s.begun[q], h) + s.workers[v].rest + Filter(s.wqs[q].list, h);
    }
  }
}
