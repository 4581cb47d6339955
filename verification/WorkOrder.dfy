/**
 In what order work items run.  Items on one list keep their order in every run, a new one goes to
 the end, and a worker that takes from the front takes nothing past an item that was there before:
 items queued on one pool are handed out in the order in which they were queued.
 */
module WorkOrder {
  import opened Maybe
  import opened WorkExecution
  import opened WorkReentrancy

  /** Item a is somewhere ahead of item b. */
  predicate Before(list: seq<nat>, a: nat, b: nat) {
    exists i, j :: 0 <= i < j < |list| && list[i] == a && list[j] == b
  }

  /** Of the items that stay, none has passed another. */
  predicate Follows(list: seq<nat>, list': seq<nat>) {
    forall a, b :: a in list' && b in list' && Before(list, a, b) ==> Before(list', a, b)
  }

  // ---------------------------------------------------------------- lists

  lemma CutFollows(list: seq<nat>, i: nat, e: nat)
    requires NoRepeat(list) && i <= e <= |list|
    ensures Follows(list, list[..i] + list[e..])
  {
    var list' := list[..i] + list[e..];
    forall a, b | a in list' && b in list' && Before(list, a, b)
      ensures Before(list', a, b)
    {
      var x :| 0 <= x < |list'| && list'[x] == a;
      var y :| 0 <= y < |list'| && list'[y] == b;
      var p, q :| 0 <= p < q < |list| && list[p] == a && list[q] == b;
      CutAt(list, i, e, x, p);
      CutAt(list, i, e, y, q);
      assert x < y;
    }
  }

  lemma CutAt(list: seq<nat>, i: nat, e: nat, x: nat, p: nat)
    requires NoRepeat(list) && i <= e <= |list| && x < |list[..i] + list[e..]| && p < |list|
    requires (list[..i] + list[e..])[x] == list[p]
    ensures p == if x < i then x else x - i + e
  {
    var q := if x < i then x else x - i + e;
    assert list[q] == list[p];
  }

  lemma InsertFollows(list: seq<nat>, i: nat, more: seq<nat>)
    requires i <= |list|
    ensures Follows(list, list[..i] + more + list[i..])
  {
    var list' := list[..i] + more + list[i..];
    forall a, b | Before(list, a, b)
      ensures Before(list', a, b)
    {
      var p, q :| 0 <= p < q < |list| && list[p] == a && list[q] == b;
      var p', q' := if p < i then p else p + |more|, if q < i then q else q + |more|;
      assert list'[p'] == a && list'[q'] == b;
    }
  }

  lemma AppendFollows(list: seq<nat>, more: seq<nat>)
    ensures Follows(list, list + more)
  {
    InsertFollows(list, |list|, more);
    assert list[..|list|] + more + list[|list|..] == list + more;
  }

  lemma SameFollows(list: seq<nat>)
    ensures Follows(list, list)
  {
  }

  // ---------------------------------------------------------------- steps

  ghost predicate AllFollow(s: State, t: State) {
    forall place {:trigger At(t.lists, place)} :: Follows(At(s.lists, place), At(t.lists, place))
  }

  lemma NoRepeats(s: State, place: Place)
    requires Inv(s)
    ensures NoRepeat(At(s.lists, place))
  {
    assert ListOk(s.works, At(s.lists, place), place, s.linked, s.barriers);
  }

  lemma InsertKeepsOrder(s: State, w: nat, pool: nat, wait: bool)
    requires w < |s.works|
    ensures AllFollow(s, Insert(s, w, pool, wait))
  {
    var t, to := Insert(s, w, pool, wait), if wait then Inactive(pool) else Worklist(pool);
    forall place
      ensures Follows(At(s.lists, place), At(t.lists, place))
    {
      if place == to { AppendFollows(At(s.lists, to), [w]); } else { SameFollows(At(s.lists, place)); }
    }
  }

  lemma TakeKeepsOrder(s: State, place: Place, i: nat)
    requires i < |At(s.lists, place)| && At(s.lists, place)[i] < |s.works| && NoRepeat(At(s.lists, place))
    ensures AllFollow(s, Take(s, place, i))
  {
    forall p
      ensures Follows(At(s.lists, p), At(Take(s, place, i).lists, p))
    {
      if p == place { CutFollows(At(s.lists, place), i, i + 1); } else { SameFollows(At(s.lists, p)); }
    }
  }

  /** Grabbing an inactive item moves its barriers behind what is on the worklist. */
  lemma GrabLists(s: State, pool: nat, i: nat)
    requires i < |At(s.lists, Inactive(pool))| && At(s.lists, Inactive(pool))[i] < |s.works|
    ensures var list := At(s.lists, Inactive(pool));
            var e := SeriesEnd(list, i, s.linked);
            GrabStep(s, Inactive(pool), i).lists
            == s.lists[Inactive(pool) := list[..i] + list[e..]]
                 [Worklist(pool) := At(s.lists, Worklist(pool)) + list[i + 1..e]]
  {
    var list, to := At(s.lists, Inactive(pool)), At(s.lists, Worklist(pool));
    var e, k := SeriesEnd(list, i, s.linked), |to|;
    var whole := to + list[i..e];
    assert whole[..k] + whole[k + 1..] == to + list[i + 1..e];
  }

  lemma MovedFollow(s: State, t: State, from: Place, i: nat, e: nat, to: Place, more: seq<nat>)
    requires i <= e <= |At(s.lists, from)| && from != to && NoRepeat(At(s.lists, from))
    requires t.lists == s.lists[from := At(s.lists, from)[..i] + At(s.lists, from)[e..]][to := At(s.lists, to) + more]
    ensures AllFollow(s, t)
  {
    forall place
      ensures Follows(At(s.lists, place), At(t.lists, place))
    {
      if place == from {
        CutFollows(At(s.lists, from), i, e);
      } else if place == to {
        AppendFollows(At(s.lists, to), more);
      } else {
        SameFollows(At(s.lists, place));
      }
    }
  }

  lemma MoveKeepsOrder(s: State, from: Place, i: nat, to: Place)
    requires i < |At(s.lists, from)| && from != to && NoRepeat(At(s.lists, from))
    ensures AllFollow(s, MoveSeries(s, from, i, to))
  {
    var e := SeriesEnd(At(s.lists, from), i, s.linked);
    MovedFollow(s, MoveSeries(s, from, i, to), from, i, e, to, At(s.lists, from)[i..e]);
  }

  lemma GrabKeepsOrder(s: State, place: Place, i: nat)
    requires Inv(s) && Enabled(s, Grab(place, i))
    ensures AllFollow(s, GrabStep(s, place, i))
  {
    NoRepeats(s, place);
    if place.Inactive? {
      var list := At(s.lists, place);
      var e := SeriesEnd(list, i, s.linked);
      GrabLists(s, place.pool, i);
      MovedFollow(s, GrabStep(s, place, i), place, i, e, Worklist(place.pool), list[i + 1..e]);
    } else {
      TakeKeepsOrder(s, place, i);
    }
  }

  lemma BarrierKeepsOrder(s: State, b: nat, place: Place, i: nat)
    requires Enabled(s, Barrier(b, place, i))
    ensures AllFollow(s, BarrierStep(s, b, place, i))
  {
    var list := At(s.lists, place);
    forall p
      ensures Follows(At(s.lists, p), At(BarrierStep(s, b, place, i).lists, p))
    {
      if p == place { InsertFollows(list, i + 1, [b]); } else { SameFollows(At(s.lists, p)); }
    }
  }

  lemma FrontKeepsOrder(s: State, b: nat, v: nat)
    requires Enabled(s, BarrierRunning(b, v))
    ensures AllFollow(s, BarrierFront(s, b, v))
  {
    var list := At(s.lists, Scheduled(v));
    forall p
      ensures Follows(At(s.lists, p), At(BarrierFront(s, b, v).lists, p))
    {
      if p == Scheduled(v) {
        InsertFollows(list, 0, [b]);
        assert list[..0] + [b] + list[0..] == [b] + list;
      } else {
        SameFollows(At(s.lists, p));
      }
    }
  }

  lemma StartKeepsOrder(s: State, v: nat)
    requires Inv(s) && Enabled(s, Start(v))
    ensures AllFollow(s, StartStep(s, v))
  {
    NoRepeats(s, Scheduled(v));
    var list := At(s.lists, Scheduled(v));
    forall p
      ensures Follows(At(s.lists, p), At(StartStep(s, v).lists, p))
    {
      if p == Scheduled(v) {
        CutFollows(list, 0, 1);
        assert list[..0] + list[1..] == list[1..];
      } else {
        SameFollows(At(s.lists, p));
      }
    }
  }

  lemma QueueKeepsOrder(s: State, step: Step)
    requires Enabled(s, step) && (step.Queue? || step.QueueOn?)
    ensures AllFollow(s, Apply(s, step))
  {
    match step
    case Queue(w, pool, wait) =>
      var last := LastPool(s.works[w].data);
      InsertKeepsOrder(s, w, pool, wait);
      if last.Some? { InsertKeepsOrder(s, w, last.value, wait); }
      assert Apply(s, step).lists == s.lists ==> AllFollow(s, Apply(s, step));
    case QueueOn(w, wait) => InsertKeepsOrder(s, w, s.works[w].stage.pool, wait);
  }

  /** No step lets an item pass another on the list they are both on. */
  lemma StepKeepsOrder(s: State, step: Step)
    requires Inv(s) && Enabled(s, step)
    ensures AllFollow(s, Apply(s, step))
  {
    match step
    case Claim(_) =>
    case Release(_) =>
    case Retry(_) =>
    case Finish(_) =>
    case Queue(_, _, _) => QueueKeepsOrder(s, step);
    case QueueOn(_, _) => QueueKeepsOrder(s, step);
    case Activate(pool, i) => NoRepeats(s, Inactive(pool)); MoveKeepsOrder(s, Inactive(pool), i, Worklist(pool));
    case Assign(v, i) =>
      var pool := s.pools[v];
      var collision := Executor(s.pools, s.current, pool, At(s.lists, Worklist(pool))[i], 0);
      NoRepeats(s, Worklist(pool));
      MoveKeepsOrder(s, Worklist(pool), i, Scheduled(if collision.Some? then collision.value else v));
    case Start(v) => StartKeepsOrder(s, v);
    case Grab(place, i) => GrabKeepsOrder(s, place, i);
    case Barrier(b, place, i) => BarrierKeepsOrder(s, b, place, i);
    case BarrierRunning(b, v) => FrontKeepsOrder(s, b, v);
  }

  // ---------------------------------------------------------------- runs

  /** Both items are on the list from position i to position j. */
  predicate BothOn(trace: seq<State>, i: nat, j: nat, place: Place, a: nat, b: nat)
    requires i <= j < |trace|
  {
    forall x :: i <= x <= j ==> a in At(trace[x].lists, place) && b in At(trace[x].lists, place)
  }

  lemma OrderAt(trace: seq<State>, steps: seq<Step>, i: nat, place: Place)
    requires IsRun(trace, steps) && i < |steps|
    ensures Follows(At(trace[i].lists, place), At(trace[i + 1].lists, place))
  {
    RunInv(trace, steps, i);
    assert IsStep(trace, steps, i);
    StepKeepsOrder(trace[i], steps[i]);
  }

  /** An item that is ahead of another on a list stays ahead as long as both are there. */
  lemma {:induction false} StaysAhead(trace: seq<State>, steps: seq<Step>, i: nat, j: nat, place: Place, a: nat, b: nat)
    requires IsRun(trace, steps) && i <= j < |trace| && BothOn(trace, i, j, place, a, b)
    requires Before(At(trace[i].lists, place), a, b)
    ensures Before(At(trace[j].lists, place), a, b)
    decreases j - i
  {
    if i == j {
    } else {
      StaysAhead(trace, steps, i, j - 1, place, a, b);
      OrderAt(trace, steps, j - 1, place);
    }
  }

  /** The step puts item w on a list by queueing it. */
  predicate Queues(s: State, step: Step, w: nat, place: Place)
    requires Enabled(s, step)
  {
    && ((step.Queue? && step.w == w) || (step.QueueOn? && step.w == w))
    && w in At(Apply(s, step).lists, place) && w !in At(s.lists, place)
  }

  /** An item that is queued goes behind all that are on its list. */
  lemma QueuedLast(s: State, step: Step, w: nat, place: Place, a: nat)
    requires Enabled(s, step) && Queues(s, step, w, place) && a in At(s.lists, place)
    ensures Before(At(Apply(s, step).lists, place), a, w)
  {
    var list, list' := At(s.lists, place), At(Apply(s, step).lists, place);
    assert list' == list + [w];
    var i :| 0 <= i < |list| && list[i] == a;
    assert list'[i] == a && list'[|list|] == w;
  }

  /** A worker that takes from the front takes nothing past an item that is ahead of it. */
  lemma FrontFirst(s: State, v: nat, a: nat, b: nat)
    requires Inv(s) && Enabled(s, Assign(v, 0)) && Before(At(s.lists, Worklist(s.pools[v])), a, b)
    requires b !in At(Apply(s, Assign(v, 0)).lists, Worklist(s.pools[v]))
    ensures a !in At(Apply(s, Assign(v, 0)).lists, Worklist(s.pools[v]))
    ensures exists u :: Before(At(Apply(s, Assign(v, 0)).lists, Scheduled(u)), a, b)
  {
    var pool := s.pools[v];
    var list, t := At(s.lists, Worklist(pool)), Apply(s, Assign(v, 0));
    var e := SeriesEnd(list, 0, s.linked);
    var collision := Executor(s.pools, s.current, pool, list[0], 0);
    var u := if collision.Some? then collision.value else v;
    NoRepeats(s, Worklist(pool));
    assert At(t.lists, Worklist(pool)) == list[..0] + list[e..] == list[e..];
    assert At(t.lists, Scheduled(u)) == At(s.lists, Scheduled(u)) + list[0..e];
    PrefixTakes(list, e, At(s.lists, Scheduled(u)), a, b);
  }

  /** Cutting off a prefix takes what is ahead of anything it takes, and keeps it ahead. */
  lemma PrefixTakes(list: seq<nat>, e: nat, had: seq<nat>, a: nat, b: nat)
    requires NoRepeat(list) && e <= |list| && Before(list, a, b) && b !in list[e..]
    ensures a !in list[e..] && Before(had + list[0..e], a, b)
  {
    var p, q :| 0 <= p < q < |list| && list[p] == a && list[q] == b;
    forall x | e <= x < |list| ensures list[x] in list[e..] { assert list[e..][x - e] == list[x]; }
    var moved := had + list[0..e];
    assert moved[|had| + p] == a && moved[|had| + q] == b;
  }

  /**
   Items leave a pool's list in the order in which they were queued: if b was queued there while a was on
   the list, and a worker takes b from the front, a is gone from the list or goes with b, ahead of it.
   */
  lemma LeaveInOrder(trace: seq<State>, steps: seq<Step>, i: nat, j: nat, v: nat, a: nat, b: nat)
    requires IsRun(trace, steps) && i < j < |steps| && steps[j] == Assign(v, 0) && v < |trace[j].pools|
    requires var place := Worklist(trace[j].pools[v]);
             && IsStep(trace, steps, i) && Queues(trace[i], steps[i], b, place) && a in At(trace[i].lists, place)
             && BothOn(trace, i + 1, j, place, a, b) && b !in At(trace[j + 1].lists, place)
    ensures a !in At(trace[j + 1].lists, Worklist(trace[j].pools[v]))
    ensures exists u :: Before(At(trace[j + 1].lists, Scheduled(u)), a, b)
  {
    var place := Worklist(trace[j].pools[v]);
    QueuedLast(trace[i], steps[i], b, place, a);
    StaysAhead(trace, steps, i + 1, j, place, a, b);
    RunInv(trace, steps, j);
    assert IsStep(trace, steps, j);
    FrontFirst(trace[j], v, a, b);
  }

  // ---------------------------------------------------------------- where

  function ListOf(pool: nat, wait: bool): Place { if wait then Inactive(pool) else Worklist(pool) }

  /**
   An item goes to the pool it is queued for, at once or after another look at the pool it was last
   on; one that is running goes to the pool whose worker runs it.
   */
  lemma QueuedWhere(trace: seq<State>, steps: seq<Step>, i: nat)
    requires IsRun(trace, steps) && i < |steps| && steps[i].Queue? && |trace[i].pools| == |trace[i].current|
    ensures var (s, t, w, wait) := (trace[i], trace[i + 1], steps[i].w, steps[i].wait);
            && w < |t.works|
            && (forall v :: 0 <= v < |s.current| && s.current[v] == Some(w) ==>
                  t.works[w].place == ListOf(s.pools[v], wait) && w in At(t.lists, t.works[w].place))
            && ((forall v :: 0 <= v < |s.current| ==> s.current[v] != Some(w)) ==>
                  || (t.works[w].place == ListOf(steps[i].pool, wait) && w in At(t.lists, t.works[w].place))
                  || t.works[w].stage == Aimed(steps[i].pool))
  {
    var s, t, w := trace[i], trace[i + 1], steps[i].w;
    RunInv(trace, steps, i);
    assert IsStep(trace, steps, i);
    RunInv(trace, steps, i + 1);
    forall v | 0 <= v < |s.current| && s.current[v] == Some(w)
      ensures LastPool(s.works[w].data) == Some(s.pools[v])
    {
      assert RunOk(s.works, s.pools, s.barriers, v, w);
    }
  }

  /** An item that was looked for at its last pool and is not running goes to the pool it is meant for. */
  lemma QueuedAsAimed(trace: seq<State>, steps: seq<Step>, i: nat)
    requires IsRun(trace, steps) && i < |steps| && steps[i].QueueOn?
    ensures var (s, t, w) := (trace[i], trace[i + 1], steps[i].w);
            && w < |s.works| == |t.works| && s.works[w].stage.Aimed?
            && t.works[w].place == ListOf(s.works[w].stage.pool, steps[i].wait) && w in At(t.lists, t.works[w].place)
            && forall v :: 0 <= v < |s.current| ==> s.current[v] != Some(w)
  {
    var s, w := trace[i], steps[i].w;
    RunInv(trace, steps, i);
    assert IsStep(trace, steps, i);
    RunInv(trace, steps, i + 1);
    forall v | 0 <= v < |s.current|
      ensures s.current[v] != Some(w)
    {
      assert s.current[v] == Some(w) ==> RunOk(s.works, s.pools, s.barriers, v, w);
    }
  }
}
