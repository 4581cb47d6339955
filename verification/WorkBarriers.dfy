/**
 What flushing one work item relies on: a barrier put behind an item does not start before the item
 has finished, or was cancelled, however the two are moved between lists in between.
 */
module WorkBarriers {
  import opened Maybe
  import opened WorkExecution
  import opened WorkReentrancy

  /** The item at p leads by links to the one at q. */
  predicate Leads(list: seq<nat>, linked: set<nat>, p: nat, q: nat) {
    p < q < |list| && forall x :: p <= x < q ==> list[x] in linked
  }

  /** Barrier b follows item w on a list, with nothing but linked items from w to b. */
  predicate ChainedOn(list: seq<nat>, linked: set<nat>, w: nat, b: nat) {
    exists p, q :: 0 <= p < q < |list| && list[p] == w && list[q] == b && Leads(list, linked, p, q)
  }

  ghost predicate Chained(s: State, w: nat, b: nat) {
    exists place :: ChainedOn(At(s.lists, place), s.linked, w, b)
  }

  /** Everything a linked item leads to is a barrier. */
  lemma LedAreBarriers(list: seq<nat>, linked: set<nat>, barriers: set<nat>, p: nat, q: nat, x: nat)
    requires LinksLead(list, linked, barriers) && Leads(list, linked, p, q) && p < x <= q
    ensures list[x] in barriers
  {
    assert list[x - 1] in linked;
  }

  // ---------------------------------------------------------------- lists

  /** The chain survives when something that is not part of it is cut out. */
  lemma CutChain(list: seq<nat>, linked: set<nat>, linked': set<nat>, i: nat, e: nat, w: nat, b: nat, p: nat, q: nat)
    requires i <= e <= |list| && Leads(list, linked, p, q) && list[p] == w && list[q] == b
    requires e <= p || q < i
    requires forall x :: p <= x < q ==> list[x] in linked'
    ensures ChainedOn(list[..i] + list[e..], linked', w, b)
  {
    var list' := list[..i] + list[e..];
    var d := if e <= p then e - i else 0;
    assert list'[p - d] == w && list'[q - d] == b;
    assert forall x :: p - d <= x < q - d ==> list'[x] == list[x + d];
    assert Leads(list', linked', p - d, q - d);
  }

  /** Or when it is moved as a whole to the end of another list. */
  lemma MovedChain(list: seq<nat>, linked: set<nat>, i: nat, e: nat, to: seq<nat>, w: nat, b: nat, p: nat, q: nat)
    requires i <= p < q < e <= |list| && Leads(list, linked, p, q) && list[p] == w && list[q] == b
    ensures ChainedOn(to + list[i..e], linked, w, b)
  {
    var list', d := to + list[i..e], |to| - i;
    assert forall x :: p <= x <= q ==> list'[x + d] == list[x];
    assert list'[p + d] == w && list'[q + d] == b && Leads(list', linked, p + d, q + d);
  }

  /** Or when the list grows at its end, or in front of the chain, or behind an item of the chain by a linked one. */
  lemma GrownChain(list: seq<nat>, linked: set<nat>, linked': set<nat>, i: nat, x: nat, w: nat, b: nat, p: nat, q: nat)
    requires i <= |list| && Leads(list, linked, p, q) && list[p] == w && list[q] == b && linked <= linked'
    requires p < i <= q ==> x in linked'
    ensures ChainedOn(list[..i] + [x] + list[i..], linked', w, b)
  {
    var list' := list[..i] + [x] + list[i..];
    var p', q' := if p < i then p else p + 1, if q < i then q else q + 1;
    assert list'[p'] == w && list'[q'] == b;
    forall y | p' <= y < q'
      ensures list'[y] in linked'
    {
      assert y != i ==> list'[y] == list[if y < i then y else y - 1];
    }
  }

  lemma AppendedChain(list: seq<nat>, linked: set<nat>, more: seq<nat>, w: nat, b: nat)
    requires ChainedOn(list, linked, w, b)
    ensures ChainedOn(list + more, linked, w, b)
  {
    var p, q :| 0 <= p < q < |list| && list[p] == w && list[q] == b && Leads(list, linked, p, q);
    assert (list + more)[p] == w && (list + more)[q] == b && Leads(list + more, linked, p, q);
  }

  /** A series that starts in front of the chain, or where no link leads, takes the chain as a whole or not at all. */
  lemma SeriesTakesChain(list: seq<nat>, linked: set<nat>, i: nat, p: nat, q: nat)
    requires i < |list| && Leads(list, linked, p, q) && (i <= p || q < i)
    ensures var e := SeriesEnd(list, i, linked); e <= p || q < i || (i <= p && q < e)
  {
    var e := SeriesEnd(list, i, linked);
  }

  // ---------------------------------------------------------------- steps

  /** The step lets go of item w: it is started, or cancelled. */
  predicate LetsGo(s: State, step: Step, w: nat)
    requires Enabled(s, step)
  {
    || (step.Start? && At(s.lists, Scheduled(step.v))[0] == w)
    || (step.Grab? && At(s.lists, step.place)[step.i] == w)
  }

  lemma MoveChain(s: State, from: Place, i: nat, to: Place, place: Place, w: nat, b: nat, p: nat, q: nat)
    requires i < |At(s.lists, from)| && from != to
    requires Leads(At(s.lists, place), s.linked, p, q) && At(s.lists, place)[p] == w && At(s.lists, place)[q] == b
    requires place == from ==> i <= p || q < i
    ensures Chained(MoveSeries(s, from, i, to), w, b)
  {
    var t, list := MoveSeries(s, from, i, to), At(s.lists, from);
    var e := SeriesEnd(list, i, s.linked);
    if place == from {
      SeriesTakesChain(list, s.linked, i, p, q);
      if i <= p && q < e {
        MovedChain(list, s.linked, i, e, At(s.lists, to), w, b, p, q);
        assert ChainedOn(At(t.lists, to), t.linked, w, b);
      } else {
        CutChain(list, s.linked, s.linked, i, e, w, b, p, q);
        assert ChainedOn(At(t.lists, from), t.linked, w, b);
      }
    } else if place == to {
      assert ChainedOn(At(s.lists, to), s.linked, w, b);
      AppendedChain(At(s.lists, to), s.linked, list[i..e], w, b);
      assert ChainedOn(At(t.lists, to), t.linked, w, b);
    } else {
      assert ChainedOn(At(t.lists, place), t.linked, w, b);
    }
  }

  /** Where no link leads to index i, i is not inside a chain. */
  lemma OutsideChain(list: seq<nat>, linked: set<nat>, i: nat, p: nat, q: nat)
    requires Leads(list, linked, p, q) && (i > 0 && i <= |list| ==> list[i - 1] !in linked)
    ensures i <= p || q < i
  {
  }

  /** An item that is no barrier and not w is not part of the chain. */
  lemma NotInChain(s: State, place: Place, i: nat, w: nat, p: nat, q: nat)
    requires Inv(s) && i < |At(s.lists, place)| && Leads(At(s.lists, place), s.linked, p, q)
    requires At(s.lists, place)[p] == w && At(s.lists, place)[i] !in s.barriers && At(s.lists, place)[i] != w
    ensures i < p || q < i
  {
    assert ListOk(s.works, At(s.lists, place), place, s.linked, s.barriers);
    if p < i <= q { LedAreBarriers(At(s.lists, place), s.linked, s.barriers, p, q, i); }
  }

  lemma TakeChain(s: State, place: Place, i: nat, from: Place, w: nat, b: nat, p: nat, q: nat)
    requires i < |At(s.lists, place)| && At(s.lists, place)[i] < |s.works|
    requires Leads(At(s.lists, from), s.linked, p, q) && At(s.lists, from)[p] == w && At(s.lists, from)[q] == b
    requires from == place ==> i < p || q < i
    requires forall x :: p <= x < q ==> At(s.lists, from)[x] != At(s.lists, place)[i]
    ensures Chained(Take(s, place, i), w, b)
  {
    var t, list := Take(s, place, i), At(s.lists, from);
    if from == place {
      CutChain(list, s.linked, t.linked, i, i + 1, w, b, p, q);
      assert ChainedOn(At(t.lists, place), t.linked, w, b);
    } else {
      assert At(t.lists, from) == list;
      assert Leads(list, t.linked, p, q) && ChainedOn(At(t.lists, from), t.linked, w, b);
    }
  }

  /** An item on one list is on no other. */
  lemma OnOneList(s: State, a: Place, i: nat, b: Place, j: nat)
    requires Inv(s) && i < |At(s.lists, a)| && j < |At(s.lists, b)| && At(s.lists, a)[i] == At(s.lists, b)[j]
    ensures a == b && i == j
  {
    assert ListOk(s.works, At(s.lists, a), a, s.linked, s.barriers);
    assert ListOk(s.works, At(s.lists, b), b, s.linked, s.barriers);
  }

  lemma GrabPlainChain(s: State, place: Place, i: nat, from: Place, w: nat, b: nat, p: nat, q: nat)
    requires Inv(s) && Enabled(s, Grab(place, i)) && !place.Inactive? && At(s.lists, place)[i] != w
    requires Leads(At(s.lists, from), s.linked, p, q) && At(s.lists, from)[p] == w && At(s.lists, from)[q] == b
    ensures Chained(GrabStep(s, place, i), w, b)
  {
    if from == place { NotInChain(s, place, i, w, p, q); }
    forall x | p <= x < q
      ensures At(s.lists, from)[x] != At(s.lists, place)[i]
    {
      if At(s.lists, from)[x] == At(s.lists, place)[i] { OnOneList(s, from, x, place, i); }
    }
    TakeChain(s, place, i, from, w, b, p, q);
  }

  /** Grabbing an inactive item: its series moves, then the item itself is taken off again. */
  lemma GrabInactiveChain(s: State, place: Place, i: nat, from: Place, w: nat, b: nat, p: nat, q: nat)
    requires Inv(s) && Enabled(s, Grab(place, i)) && place.Inactive? && At(s.lists, place)[i] != w
    requires Leads(At(s.lists, from), s.linked, p, q) && At(s.lists, from)[p] == w && At(s.lists, from)[q] == b
    ensures Chained(GrabStep(s, place, i), w, b)
  {
    var to := Worklist(place.pool);
    var u, k, g := MoveSeries(s, place, i, to), |At(s.lists, to)|, At(s.lists, place)[i];
    if from == place { NotInChain(s, place, i, w, p, q); }
    MoveChain(s, place, i, to, from, w, b, p, q);
    MoveInv(s, place, i, to);
    var on :| ChainedOn(At(u.lists, on), u.linked, w, b);
    var p', q' :| 0 <= p' < q' < |At(u.lists, on)| && At(u.lists, on)[p'] == w && At(u.lists, on)[q'] == b
                  && Leads(At(u.lists, on), u.linked, p', q');
    assert At(u.lists, to)[k] == g;
    MovedApart(s, u, to, k, on, w, p', q');
    TakeChain(u, to, k, on, w, b, p', q');
  }

  /** What the move leaves in order, as far as the chain is concerned. */
  ghost predicate ListsInOrder(s: State) { ListsOk(s.works, s.lists, s.linked, s.barriers) }

  lemma MoveInv(s: State, place: Place, i: nat, to: Place)
    requires Inv(s) && Enabled(s, Grab(place, i)) && place.Inactive? && to == Worklist(place.pool)
    ensures ListsInOrder(MoveSeries(s, place, i, to))
  {
    assert ListOk(s.works, At(s.lists, place), place, s.linked, s.barriers);
    MoveLists(s, place, i, to);
  }

  lemma MovedApart(s: State, u: State, to: Place, k: nat, on: Place, w: nat, p: nat, q: nat)
    requires ListsInOrder(u) && k < |At(u.lists, to)| && Leads(At(u.lists, on), u.linked, p, q)
    requires At(u.lists, on)[p] == w && At(u.lists, to)[k] !in u.barriers && At(u.lists, to)[k] != w
    ensures on == to ==> k < p || q < k
    ensures forall x :: p <= x < q ==> At(u.lists, on)[x] != At(u.lists, to)[k]
  {
    assert ListOk(u.works, At(u.lists, on), on, u.linked, u.barriers);
    assert ListOk(u.works, At(u.lists, to), to, u.linked, u.barriers);
    forall x | p < x <= q
      ensures At(u.lists, on)[x] in u.barriers
    {
      LedAreBarriers(At(u.lists, on), u.linked, u.barriers, p, q, x);
    }
  }

  lemma BarrierChain(s: State, c: nat, place: Place, i: nat, from: Place, w: nat, b: nat, p: nat, q: nat)
    requires Inv(s) && Enabled(s, Barrier(c, place, i))
    requires Leads(At(s.lists, from), s.linked, p, q) && At(s.lists, from)[p] == w && At(s.lists, from)[q] == b
    ensures Chained(BarrierStep(s, c, place, i), w, b)
  {
    var t, list := BarrierStep(s, c, place, i), At(s.lists, from);
    if from == place {
      if At(s.lists, place)[i] != w { NotInChain(s, place, i, w, p, q); }
      assert ListOk(s.works, list, place, s.linked, s.barriers);
      GrownChain(list, s.linked, t.linked, i + 1, c, w, b, p, q);
      assert ChainedOn(At(t.lists, place), t.linked, w, b);
    } else {
      assert At(t.lists, from) == list && Leads(list, t.linked, p, q) && ChainedOn(At(t.lists, from), t.linked, w, b);
    }
  }

  lemma FrontChain(s: State, c: nat, v: nat, from: Place, w: nat, b: nat, p: nat, q: nat)
    requires Enabled(s, BarrierRunning(c, v))
    requires Leads(At(s.lists, from), s.linked, p, q) && At(s.lists, from)[p] == w && At(s.lists, from)[q] == b
    ensures Chained(BarrierFront(s, c, v), w, b)
  {
    var t, list := BarrierFront(s, c, v), At(s.lists, from);
    if from == Scheduled(v) {
      GrownChain(list, s.linked, t.linked, 0, c, w, b, p, q);
      assert list[..0] + [c] + list[0..] == [c] + list;
    }
    assert ChainedOn(At(t.lists, from), t.linked, w, b);
  }

  /** Starting another item: it is in front of the chain, or on another list. */
  lemma StartChain(s: State, v: nat, from: Place, w: nat, b: nat, p: nat, q: nat)
    requires Inv(s) && Enabled(s, Start(v)) && At(s.lists, Scheduled(v))[0] != w
    requires Leads(At(s.lists, from), s.linked, p, q) && At(s.lists, from)[p] == w && At(s.lists, from)[q] == b
    ensures Chained(StartStep(s, v), w, b)
  {
    var t, list := StartStep(s, v), At(s.lists, from);
    forall x | p <= x < q
      ensures list[x] in t.linked
    {
      if list[x] == At(s.lists, Scheduled(v))[0] { OnOneList(s, from, x, Scheduled(v), 0); }
    }
    if from == Scheduled(v) {
      CutChain(list, s.linked, t.linked, 0, 1, w, b, p, q);
      assert list[..0] + list[1..] == list[1..];
      assert ChainedOn(At(t.lists, from), t.linked, w, b);
    } else {
      assert At(t.lists, from) == list && Leads(list, t.linked, p, q);
      assert ChainedOn(At(t.lists, from), t.linked, w, b);
    }
  }

  lemma QueueChain(s: State, step: Step, from: Place, w: nat, b: nat)
    requires Enabled(s, step) && (step.Queue? || step.QueueOn?) && ChainedOn(At(s.lists, from), s.linked, w, b)
    ensures Chained(Apply(s, step), w, b)
  {
    var t := Apply(s, step);
    AppendedChain(At(s.lists, from), s.linked, [step.w], w, b);
    assert At(t.lists, from) == At(s.lists, from) || At(t.lists, from) == At(s.lists, from) + [step.w];
    assert ChainedOn(At(t.lists, from), t.linked, w, b);
  }

  /** The chain holds until the item is started or cancelled. */
  lemma StepChain(s: State, step: Step, w: nat, b: nat)
    requires Inv(s) && Enabled(s, step) && Chained(s, w, b) && !LetsGo(s, step, w)
    ensures Chained(Apply(s, step), w, b)
  {
    var from :| ChainedOn(At(s.lists, from), s.linked, w, b);
    var list := At(s.lists, from);
    var p, q :| 0 <= p < q < |list| && list[p] == w && list[q] == b && Leads(list, s.linked, p, q);
    match step
    case Claim(_) => assert ChainedOn(At(Apply(s, step).lists, from), Apply(s, step).linked, w, b);
    case Release(_) => assert ChainedOn(At(Apply(s, step).lists, from), Apply(s, step).linked, w, b);
    case Retry(_) => assert ChainedOn(At(Apply(s, step).lists, from), Apply(s, step).linked, w, b);
    case Finish(_) => assert ChainedOn(At(Apply(s, step).lists, from), Apply(s, step).linked, w, b);
    case Queue(_, _, _) => QueueChain(s, step, from, w, b);
    case QueueOn(_, _) => QueueChain(s, step, from, w, b);
    case Activate(pool, i) =>
      if from == Inactive(pool) { OutsideChain(list, s.linked, i, p, q); }
      MoveChain(s, Inactive(pool), i, Worklist(pool), from, w, b, p, q);
    case Assign(v, i) => AssignChain(s, v, i, from, w, b, p, q);
    case Start(v) => StartChain(s, v, from, w, b, p, q);
    case Grab(place, i) =>
      if place.Inactive? { GrabInactiveChain(s, place, i, from, w, b, p, q); }
      else { GrabPlainChain(s, place, i, from, w, b, p, q); }
    case Barrier(c, place, i) => BarrierChain(s, c, place, i, from, w, b, p, q);
    case BarrierRunning(c, v) => FrontChain(s, c, v, from, w, b, p, q);
  }

  lemma AssignChain(s: State, v: nat, i: nat, from: Place, w: nat, b: nat, p: nat, q: nat)
    requires Enabled(s, Assign(v, i))
    requires Leads(At(s.lists, from), s.linked, p, q) && At(s.lists, from)[p] == w && At(s.lists, from)[q] == b
    ensures Chained(AssignStep(s, v, i), w, b)
  {
    var pool := s.pools[v];
    var collision := Executor(s.pools, s.current, pool, At(s.lists, Worklist(pool))[i], 0);
    if from == Worklist(pool) { OutsideChain(At(s.lists, from), s.linked, i, p, q); }
    MoveChain(s, Worklist(pool), i, Scheduled(if collision.Some? then collision.value else v), from, w, b, p, q);
  }

  // ---------------------------------------------------------------- runs

  /** The step starts item x on worker v. */
  predicate Starts(s: State, step: Step, v: nat, x: nat) {
    step == Start(v) && At(s.lists, Scheduled(v)) != [] && At(s.lists, Scheduled(v))[0] == x
  }

  predicate Cancels(s: State, step: Step, w: nat) {
    step.Grab? && step.i < |At(s.lists, step.place)| && At(s.lists, step.place)[step.i] == w
  }

  /** A barrier that is chained behind its item is not the first of its list. */
  lemma ChainedNotFirst(s: State, v: nat, w: nat, b: nat)
    requires Inv(s) && Chained(s, w, b) && At(s.lists, Scheduled(v)) != []
    ensures At(s.lists, Scheduled(v))[0] != b
  {
    var from :| ChainedOn(At(s.lists, from), s.linked, w, b);
    var p, q :| 0 <= p < q < |At(s.lists, from)| && At(s.lists, from)[p] == w && At(s.lists, from)[q] == b
                && Leads(At(s.lists, from), s.linked, p, q);
    if At(s.lists, Scheduled(v))[0] == b { OnOneList(s, Scheduled(v), 0, from, q); }
  }

  /** As long as the item is neither started nor cancelled, the barrier is chained behind it. */
  lemma {:induction false} StaysChained(trace: seq<State>, steps: seq<Step>, i: nat, j: nat, w: nat, b: nat)
    requires IsRun(trace, steps) && i <= j < |trace| && Chained(trace[i], w, b)
    requires forall x :: i <= x < j ==> !LetsGoAt(trace, steps, x, w)
    ensures Chained(trace[j], w, b)
    decreases j - i
  {
    if i == j {
    } else {
      StaysChained(trace, steps, i, j - 1, w, b);
      RunInv(trace, steps, j - 1);
      assert IsStep(trace, steps, j - 1) && !LetsGoAt(trace, steps, j - 1, w);
      StepChain(trace[j - 1], steps[j - 1], w, b);
    }
  }

  predicate LetsGoAt(trace: seq<State>, steps: seq<Step>, x: nat, w: nat)
    requires |trace| == |steps| + 1 && x < |steps|
  {
    Cancels(trace[x], steps[x], w) || (steps[x].Start? && Starts(trace[x], steps[x], steps[x].v, w))
  }

  /** Item b waits on the list of worker v. */
  predicate WaitsOn(s: State, v: nat, b: nat) { b in At(s.lists, Scheduled(v)) }

  lemma InCut(list: seq<nat>, i: nat, e: nat, j: nat)
    requires i <= e <= |list| && j < |list| && (j < i || e <= j)
    ensures list[j] in list[..i] + list[e..]
  {
    assert (list[..i] + list[e..])[if j < i then j else j - e + i] == list[j];
  }

  lemma InGrown(list: seq<nat>, i: nat, x: nat, b: nat)
    requires i <= |list| && b in list
    ensures b in list[..i] + [x] + list[i..]
  {
    var j :| 0 <= j < |list| && list[j] == b;
    assert (list[..i] + [x] + list[i..])[if j < i then j else j + 1] == b;
  }

  lemma WaitsGrab(s: State, place: Place, i: nat, v: nat, b: nat)
    requires Inv(s) && Enabled(s, Grab(place, i)) && b in s.barriers && WaitsOn(s, v, b)
    ensures WaitsOn(GrabStep(s, place, i), v, b)
  {
    var list := At(s.lists, Scheduled(v));
    var j :| 0 <= j < |list| && list[j] == b;
    if place == Scheduled(v) { InCut(list, i, i + 1, j); }
  }

  lemma WaitsStart(s: State, u: nat, v: nat, b: nat)
    requires Enabled(s, Start(u)) && WaitsOn(s, v, b) && !Starts(s, Start(u), v, b)
    ensures WaitsOn(StartStep(s, u), v, b)
  {
    var list := At(s.lists, Scheduled(v));
    var j :| 0 <= j < |list| && list[j] == b;
    if u == v { assert list[1..][j - 1] == b; }
  }

  lemma WaitsBarrier(s: State, step: Step, v: nat, b: nat)
    requires Enabled(s, step) && (step.Barrier? || step.BarrierRunning?) && WaitsOn(s, v, b)
    ensures WaitsOn(Apply(s, step), v, b)
  {
    var list := At(s.lists, Scheduled(v));
    if step.Barrier? {
      if step.place == Scheduled(v) { InGrown(list, step.i + 1, step.b, b); }
    } else if step.v == v {
      InGrown(list, 0, step.b, b);
      assert list[..0] + [step.b] + list[0..] == [step.b] + list;
    }
  }

  /** Nothing else takes an item off a worker's list. */
  lemma WaitsOther(s: State, step: Step, v: nat, b: nat)
    requires Enabled(s, step) && WaitsOn(s, v, b)
    requires !step.Start? && !step.Grab? && !step.Barrier? && !step.BarrierRunning?
    ensures WaitsOn(Apply(s, step), v, b)
  {
    match step
    case Claim(_) =>
    case Release(_) =>
    case Retry(_) =>
    case Finish(_) =>
    case Queue(_, _, _) =>
    case QueueOn(_, _) =>
    case Activate(_, _) =>
    case Assign(_, _) =>
  }

  /** A barrier on a worker's list stays there until it starts. */
  lemma WaitsStep(s: State, step: Step, v: nat, b: nat)
    requires Inv(s) && Enabled(s, step) && b in s.barriers && WaitsOn(s, v, b) && !Starts(s, step, v, b)
    ensures WaitsOn(Apply(s, step), v, b)
  {
    if step.Start? {
      WaitsStart(s, step.v, v, b);
    } else if step.Grab? {
      WaitsGrab(s, step.place, step.i, v, b);
    } else if step.Barrier? || step.BarrierRunning? {
      WaitsBarrier(s, step, v, b);
    } else {
      WaitsOther(s, step, v, b);
    }
  }

  lemma {:induction false} WaitsStays(trace: seq<State>, steps: seq<Step>, i: nat, j: nat, v: nat, b: nat)
    requires IsRun(trace, steps) && i <= j < |trace| && b in trace[i].barriers && WaitsOn(trace[i], v, b)
    requires forall x :: i <= x < j ==> !Starts(trace[x], steps[x], v, b)
    ensures WaitsOn(trace[j], v, b) && b in trace[j].barriers
    decreases j - i
  {
    if i == j {
    } else {
      WaitsStays(trace, steps, i, j - 1, v, b);
      RunInv(trace, steps, j - 1);
      assert IsStep(trace, steps, j - 1);
      WaitsStep(trace[j - 1], steps[j - 1], v, b);
      KeepsBarriers(trace[j - 1], steps[j - 1]);
    }
  }

  lemma KeepsBarriers(s: State, step: Step)
    requires Enabled(s, step)
    ensures Apply(s, step).barriers == s.barriers && |Apply(s, step).current| == |s.current|
  {
  }

  /** A worker that runs something and later nothing has finished in between. */
  lemma {:induction false} FinishedBetween(trace: seq<State>, steps: seq<Step>, i: nat, j: nat, v: nat)
    requires IsRun(trace, steps) && i <= j < |trace|
    requires v < |trace[i].current| && trace[i].current[v].Some?
    requires v < |trace[j].current| && trace[j].current[v].None?
    ensures exists x :: i <= x < j && steps[x] == Finish(v)
    decreases j - i
  {
    assert IsStep(trace, steps, j - 1);
    KeepsBarriers(trace[j - 1], steps[j - 1]);
    if trace[j - 1].current[v].None? {
      FinishedBetween(trace, steps, i, j - 1, v);
    } else {
      assert steps[j - 1] == Finish(v);
    }
  }

  /** The barrier starts once. */
  predicate FirstStart(trace: seq<State>, steps: seq<Step>, i: nat, j: nat, v: nat, b: nat)
    requires |trace| == |steps| + 1
  {
    && i <= j < |steps| && Starts(trace[j], steps[j], v, b)
    && forall x :: i <= x < j && steps[x].Start? ==> !Starts(trace[x], steps[x], steps[x].v, b)
  }

  /** The barrier waits for the worker that runs its item, and starts there when that is done. */
  lemma AfterRunning(trace: seq<State>, steps: seq<Step>, i: nat, j: nat, u: nat, v: nat, b: nat)
    requires IsRun(trace, steps) && FirstStart(trace, steps, i, j, v, b) && b in trace[i].barriers
    requires WaitsOn(trace[i], u, b) && u < |trace[i].current| && trace[i].current[u].Some?
    ensures u == v && exists x :: i <= x < j && steps[x] == Finish(v)
  {
    WaitsStays(trace, steps, i, j, u, b);
    RunInv(trace, steps, j);
    var k :| 0 <= k < |At(trace[j].lists, Scheduled(u))| && At(trace[j].lists, Scheduled(u))[k] == b;
    OnOneList(trace[j], Scheduled(u), k, Scheduled(v), 0);
    assert IsStep(trace, steps, j);
    FinishedBetween(trace, steps, i, j, v);
  }

  /** Starting an item leaves its barriers on the list of the worker that runs it. */
  lemma StartLeaves(s: State, u: nat, w: nat, b: nat)
    requires Inv(s) && Enabled(s, Start(u)) && At(s.lists, Scheduled(u))[0] == w && Chained(s, w, b)
    ensures WaitsOn(StartStep(s, u), u, b) && StartStep(s, u).current[u].Some?
  {
    var from :| ChainedOn(At(s.lists, from), s.linked, w, b);
    var p, q :| 0 <= p < q < |At(s.lists, from)| && At(s.lists, from)[p] == w && At(s.lists, from)[q] == b
                && Leads(At(s.lists, from), s.linked, p, q);
    OnOneList(s, from, p, Scheduled(u), 0);
    assert At(s.lists, Scheduled(u))[1..][q - 1] == b;
  }

  /** After step i, the item's worker finished it before step j, or it was cancelled. */
  predicate Over(trace: seq<State>, steps: seq<Step>, i: nat, j: nat, w: nat)
    requires |trace| == |steps| + 1 && j <= |steps|
  {
    || (exists x :: i <= x < j && Cancels(trace[x], steps[x], w))
    || (exists x, y :: i <= x < y < j && RanBetween(trace, steps, x, y, w))
  }

  predicate RanBetween(trace: seq<State>, steps: seq<Step>, x: nat, y: nat, w: nat)
    requires |trace| == |steps| + 1 && x < |steps| && y < |steps|
  {
    steps[x].Start? && Starts(trace[x], steps[x], steps[x].v, w) && steps[y] == Finish(steps[x].v)
  }

  lemma ChainedWaits(trace: seq<State>, steps: seq<Step>, i: nat, j: nat, v: nat, w: nat, b: nat)
    requires IsRun(trace, steps) && FirstStart(trace, steps, i, j, v, b)
    requires b in trace[i].barriers && Chained(trace[i], w, b)
    ensures Over(trace, steps, i, j, w)
  {
    if x :| i <= x < j && LetsGoAt(trace, steps, x, w) {
      FirstLetsGo(trace, steps, i, x, j, v, w, b);
    } else {
      StaysChained(trace, steps, i, j, w, b);
      RunInv(trace, steps, j);
      ChainedNotFirst(trace[j], v, w, b);
    }
  }

  /** The first step that lets go of the item decides. */
  lemma {:induction false} FirstLetsGo(trace: seq<State>, steps: seq<Step>, i: nat, x: nat, j: nat, v: nat, w: nat,
                                       b: nat)
    requires IsRun(trace, steps) && FirstStart(trace, steps, i, j, v, b)
    requires i <= x < j && b in trace[i].barriers && Chained(trace[i], w, b) && LetsGoAt(trace, steps, x, w)
    ensures Over(trace, steps, i, j, w)
    decreases x
  {
    if y :| i <= y < x && LetsGoAt(trace, steps, y, w) {
      FirstLetsGo(trace, steps, i, y, j, v, w, b);
    } else if !Cancels(trace[x], steps[x], w) {
      StaysChained(trace, steps, i, x, w, b);
      BarriersStay(trace, steps, i, x);
      RunInv(trace, steps, x);
      assert IsStep(trace, steps, x);
      var u := steps[x].v;
      StartLeaves(trace[x], u, w, b);
      KeepsBarriers(trace[x], steps[x]);
      AfterRunning(trace, steps, x + 1, j, u, v, b);
      var y :| x + 1 <= y < j && steps[y] == Finish(v);
      assert RanBetween(trace, steps, x, y, w);
    }
  }

  lemma {:induction false} BarriersStay(trace: seq<State>, steps: seq<Step>, i: nat, j: nat)
    requires IsRun(trace, steps) && i <= j < |trace|
    ensures trace[j].barriers == trace[i].barriers
    decreases j - i
  {
    if i == j {
    } else {
      BarriersStay(trace, steps, i, j - 1);
      assert IsStep(trace, steps, j - 1);
      KeepsBarriers(trace[j - 1], steps[j - 1]);
    }
  }

  /** A barrier put behind a queued item starts only after the item was run and finished, or cancelled. */
  lemma BarrierWaits(trace: seq<State>, steps: seq<Step>, i: nat, j: nat, v: nat, b: nat, place: Place, k: nat)
    requires IsRun(trace, steps) && i < |steps| && steps[i] == Barrier(b, place, k)
    requires FirstStart(trace, steps, i + 1, j, v, b)
    ensures k < |At(trace[i].lists, place)| && Over(trace, steps, i + 1, j, At(trace[i].lists, place)[k])
  {
    assert IsStep(trace, steps, i);
    var list, w := At(trace[i].lists, place), At(trace[i].lists, place)[k];
    var list' := list[..k + 1] + [b] + list[k + 1..];
    assert At(trace[i + 1].lists, place) == list' && list'[k] == w && list'[k + 1] == b;
    assert Leads(list', trace[i + 1].linked, k, k + 1) && ChainedOn(list', trace[i + 1].linked, w, b);
    ChainedWaits(trace, steps, i + 1, j, v, w, b);
  }

  /** A barrier put behind a running item starts only after the worker that runs it has finished. */
  lemma BarrierRunningWaits(trace: seq<State>, steps: seq<Step>, i: nat, j: nat, u: nat, v: nat, b: nat)
    requires IsRun(trace, steps) && i < |steps| && steps[i] == BarrierRunning(b, u)
    requires FirstStart(trace, steps, i + 1, j, v, b)
    ensures u == v && exists x :: i < x < j && steps[x] == Finish(u)
  {
    assert IsStep(trace, steps, i);
    assert At(trace[i + 1].lists, Scheduled(u))[0] == b;
    AfterRunning(trace, steps, i + 1, j, u, v, b);
  }
}
