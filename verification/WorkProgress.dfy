/**
 Nothing queued is left lying: from every state of every run, whatever is on a list can be run to the
 end by the workers alone, as long as items are queued to pools that have a worker.
 */
module WorkProgress {
  import opened Maybe
  import opened Paths
  import opened Sums
  import opened WorkExecution
  import opened WorkReentrancy

  // ---------------------------------------------------------------- pools with workers

  predicate HasWorker(pools: seq<nat>, place: Place) {
    match place
    case Nowhere => true
    case Worklist(p) => p in pools
    case Inactive(p) => p in pools
    case Scheduled(v) => v < |pools|
  }

  predicate Attended(pools: seq<nat>, w: Work) {
    HasWorker(pools, w.place) && (w.stage.Aimed? ==> w.stage.pool in pools)
  }

  /** Every list with something on it, and every pool aimed at, has a worker. */
  predicate Staffed(s: State) { forall w :: 0 <= w < |s.works| ==> Attended(s.pools, s.works[w]) }

  /** The step aims at no pool that has no worker. */
  predicate AimsAtStaff(pools: seq<nat>, step: Step) { step.Queue? ==> step.pool in pools }

  /** The list of an item that is on one has a worker. */
  lemma ListStaffed(s: State, place: Place, i: nat)
    requires Inv(s) && Staffed(s) && i < |At(s.lists, place)|
    ensures At(s.lists, place)[i] < |s.works| && s.works[At(s.lists, place)[i]].place == place
    ensures HasWorker(s.pools, place)
  {
    assert ListOk(s.works, At(s.lists, place), place, s.linked, s.barriers);
    assert Attended(s.pools, s.works[At(s.lists, place)[i]]);
  }

  lemma MoveStaffed(s: State, from: Place, i: nat, to: Place)
    requires Staffed(s) && i < |At(s.lists, from)| && from != to && HasWorker(s.pools, to)
    ensures Staffed(MoveSeries(s, from, i, to))
  {
  }

  lemma QueueStaffed(s: State, w: nat, pool: nat, wait: bool)
    requires Staffed(s) && Shape(s) && w < |s.works| && pool in s.pools
    ensures Staffed(QueueStep(s, w, pool, wait)) && Staffed(Insert(s, w, pool, wait))
  {
    var last := LastPool(s.works[w].data);
    if last.Some? && Executor(s.pools, s.current, last.value, w, 0).Some? { assert last.value in s.pools; }
  }

  lemma GrabStaffed(s: State, place: Place, i: nat)
    requires Inv(s) && Staffed(s) && Enabled(s, Grab(place, i))
    ensures Staffed(GrabStep(s, place, i))
  {
    ListStaffed(s, place, i);
    if place.Inactive? { MoveStaffed(s, place, i, Worklist(place.pool)); }
  }

  lemma BarrierStaffed(s: State, step: Step)
    requires Inv(s) && Staffed(s) && Enabled(s, step) && (step.Barrier? || step.BarrierRunning?)
    ensures Staffed(Apply(s, step))
  {
    if step.Barrier? { ListStaffed(s, step.place, step.i); }
  }

  lemma ListStepStaffed(s: State, step: Step)
    requires Inv(s) && Staffed(s) && Enabled(s, step) && (step.Activate? || step.Assign? || step.Start?)
    ensures Staffed(Apply(s, step))
  {
    if step.Activate? {
      ListStaffed(s, Inactive(step.pool), step.i);
      MoveStaffed(s, Inactive(step.pool), step.i, Worklist(step.pool));
    } else if step.Assign? {
      var list := Worklist(s.pools[step.v]);
      var busy := Executor(s.pools, s.current, list.pool, At(s.lists, list)[step.i], 0);
      MoveStaffed(s, list, step.i, Scheduled(if busy.Some? then busy.value else step.v));
    }
  }

  lemma StepStaffed(s: State, step: Step)
    requires Inv(s) && Staffed(s) && Enabled(s, step) && AimsAtStaff(s.pools, step)
    ensures Staffed(Apply(s, step)) && Apply(s, step).pools == s.pools
  {
    if step.Queue? {
      QueueStaffed(s, step.w, step.pool, step.wait);
    } else if step.QueueOn? {
      assert Attended(s.pools, s.works[step.w]);
      QueueStaffed(s, step.w, s.works[step.w].stage.pool, step.wait);
    } else if step.Grab? {
      GrabStaffed(s, step.place, step.i);
    } else if step.Barrier? || step.BarrierRunning? {
      BarrierStaffed(s, step);
    } else if step.Activate? || step.Assign? || step.Start? {
      ListStepStaffed(s, step);
    }
  }

  // ---------------------------------------------------------------- how much is left

  function Weight(w: Work): nat {
    match w.place
    case Nowhere => 0
    case Scheduled(_) => 1
    case Worklist(_) => 2
    case Inactive(_) => 3
  }

  function Weights(works: seq<Work>): seq<nat> {
    seq(|works|, w requires 0 <= w < |works| => Weight(works[w]))
  }

  function Loads(current: seq<Option<nat>>): seq<nat> {
    seq(|current|, v requires 0 <= v < |current| => if current[v].Some? then 1 else 0)
  }

  // ---------------------------------------------------------------- the workers alone

  /** What workers do: activate waiting items, take items, run them. */
  predicate WorkerStep(step: Step) { step.Activate? || step.Assign? || step.Start? || step.Finish? }

  /** Nothing is on a list and nothing runs. */
  predicate AtRest(s: State) {
    && (forall w :: 0 <= w < |s.works| ==> s.works[w].place == Nowhere)
    && (forall v :: 0 <= v < |s.current| ==> s.current[v].None?)
  }

  predicate Nearer(t: State, s: State) {
    || Sum(Weights(t.works)) < Sum(Weights(s.works))
    || (Sum(Weights(t.works)) == Sum(Weights(s.works)) && Sum(Loads(t.current)) < Sum(Loads(s.current)))
  }

  lemma LighterWorks(works: seq<Work>, works': seq<Work>, k: nat)
    requires |works| == |works'| && k < |works| && Weight(works'[k]) < Weight(works[k])
    requires forall w :: 0 <= w < |works| ==> Weight(works'[w]) <= Weight(works[w])
    ensures Sum(Weights(works')) < Sum(Weights(works))
  {
    SumLess(Weights(works'), Weights(works), k);
  }

  predicate Towards(from: Place, to: Place) {
    (from.Inactive? && to.Worklist?) || (from.Worklist? && to.Scheduled?)
  }

  lemma MoveNearer(s: State, from: Place, i: nat, to: Place)
    requires Inv(s) && i < |At(s.lists, from)| && Towards(from, to)
    ensures Nearer(MoveSeries(s, from, i, to), s)
  {
    var list := At(s.lists, from);
    assert ListOk(s.works, list, from, s.linked, s.barriers);
    var e := SeriesEnd(list, i, s.linked);
    assert list[i..e][0] == list[i];
    LighterWorks(s.works, Placed(s.works, list[i..e], to), list[i]);
  }

  lemma StartNearer(s: State, v: nat)
    requires Inv(s) && Enabled(s, Start(v))
    ensures Nearer(Apply(s, Start(v)), s)
  {
    var list := At(s.lists, Scheduled(v));
    assert ListOk(s.works, list, Scheduled(v), s.linked, s.barriers);
    LighterWorks(s.works, Apply(s, Start(v)).works, list[0]);
  }

  lemma WorkerNearer(s: State, step: Step)
    requires Inv(s) && Enabled(s, step) && WorkerStep(step)
    ensures Nearer(Apply(s, step), s)
  {
    if step.Finish? {
      SumLess(Loads(Apply(s, step).current), Loads(s.current), step.v);
    } else if step.Start? {
      StartNearer(s, step.v);
    } else if step.Activate? {
      MoveNearer(s, Inactive(step.pool), step.i, Worklist(step.pool));
    } else {
      var list := Worklist(s.pools[step.v]);
      var busy := Executor(s.pools, s.current, list.pool, At(s.lists, list)[step.i], 0);
      MoveNearer(s, list, step.i, Scheduled(if busy.Some? then busy.value else step.v));
    }
  }

  /** Short of rest some worker has something to do. */
  lemma NotStuck(s: State) returns (step: Step)
    requires Inv(s) && Staffed(s) && !AtRest(s)
    ensures Enabled(s, step) && WorkerStep(step)
  {
    if v :| 0 <= v < |s.current| && s.current[v].Some? {
      step := Finish(v);
    } else {
      var w :| 0 <= w < |s.works| && s.works[w].place != Nowhere;
      var place := s.works[w].place;
      assert w in At(s.lists, place);
      ListStaffed(s, place, 0);
      match place
      case Scheduled(v) => step := Start(v);
      case Inactive(p) => step := Activate(p, 0);
      case Worklist(p) =>
        var v :| 0 <= v < |s.pools| && s.pools[v] == p;
        if At(s.lists, Scheduled(v)) == [] {
          step := Assign(v, 0);
        } else {
          ListStaffed(s, Scheduled(v), 0);
          step := Start(v);
        }
    }
  }

  // ---------------------------------------------------------------- everything runs

  /** Only a worker moves on the way from s to t. */
  predicate Goes(s: State, step: Step, t: State) { Enabled(s, step) && t == Apply(s, step) && WorkerStep(step) }

  /** An idle worker begins with the item. */
  predicate Begins(s: State, t: State, w: nat) {
    exists v :: 0 <= v < |s.current| && s.current[v].None? && v < |t.current| && t.current[v] == Some(w)
  }

  predicate BeginsIn(trace: seq<State>, w: nat) {
    exists i :: 0 <= i < |trace| - 1 && Begins(trace[i], trace[i + 1], w)
  }

  /** A worker's step leaves an item on some list, or is the one that begins with it. */
  lemma StaysOrBegins(s: State, step: Step, w: nat)
    requires Inv(s) && Enabled(s, step) && WorkerStep(step) && w < |s.works| && s.works[w].place != Nowhere
    ensures var t := Apply(s, step); |t.works| == |s.works| && (t.works[w].place != Nowhere || Begins(s, t, w))
  {
    if step.Start? {
      var t := Apply(s, step);
      assert t.current[step.v] == Some(At(s.lists, Scheduled(step.v))[0]);
    }
  }

  lemma BeginsLater(trace: seq<State>, s: State, w: nat)
    requires |trace| > 0 && (Begins(s, trace[0], w) || BeginsIn(trace, w))
    ensures BeginsIn([s] + trace, w)
  {
    var trace' := [s] + trace;
    if Begins(s, trace[0], w) {
      assert Begins(trace'[0], trace'[0 + 1], w);
    } else {
      var i :| 0 <= i < |trace| - 1 && Begins(trace[i], trace[i + 1], w);
      var k := i + 1;
      assert trace'[k] == trace[i] && trace'[k + 1] == trace[i + 1];
    }
  }

  /** What is on a list will have begun. */
  predicate AllBegin(trace: seq<State>, s: State) {
    forall w :: 0 <= w < |s.works| && s.works[w].place != Nowhere ==> BeginsIn(trace, w)
  }

  lemma AllBeginFrom(trace: seq<State>, s: State, step: Step, t: State)
    requires Inv(s) && Goes(s, step, t) && |trace| > 0 && trace[0] == t && AllBegin(trace, t)
    ensures AllBegin([s] + trace, s)
  {
    forall w | 0 <= w < |s.works| && s.works[w].place != Nowhere
      ensures BeginsIn([s] + trace, w)
    {
      StaysOrBegins(s, step, w);
      BeginsLater(trace, s, w);
    }
  }

  lemma GoesNearer(s: State, step: Step)
    requires Inv(s) && Staffed(s) && Enabled(s, step) && WorkerStep(step)
    ensures var t := Apply(s, step); Inv(t) && Staffed(t) && Nearer(t, s)
  {
    StepOk(s, step);
    StepStaffed(s, step);
    WorkerNearer(s, step);
  }

  /** The workers alone can run everything that is queued. */
  lemma {:induction false} EverythingRuns(s: State) returns (trace: seq<State>, steps: seq<Step>)
    requires Inv(s) && Staffed(s)
    ensures IsPath(Goes, trace, steps, s) && AtRest(trace[|steps|]) && AllBegin(trace, s)
    decreases Sum(Weights(s.works)), Sum(Loads(s.current))
  {
    if AtRest(s) {
      trace, steps := [s], [];
    } else {
      var step := NotStuck(s);
      var t := Apply(s, step);
      GoesNearer(s, step);
      var trace', steps' := EverythingRuns(t);
      PathFrom(Goes, trace', steps', s, step, t);
      AllBeginFrom(trace', s, step, t);
      trace, steps := [s] + trace', [step] + steps';
    }
  }

  lemma {:induction false} RunStaffed(trace: seq<State>, steps: seq<Step>, i: nat)
    requires IsRun(trace, steps) && i < |trace|
    requires forall j :: 0 <= j < |steps| ==> AimsAtStaff(trace[0].pools, steps[j])
    ensures Staffed(trace[i]) && trace[i].pools == trace[0].pools
  {
    if i == 0 {
    } else {
      RunStaffed(trace, steps, i - 1);
      RunInv(trace, steps, i - 1);
      assert IsStep(trace, steps, i - 1);
      StepStaffed(trace[i - 1], steps[i - 1]);
    }
  }

  /** Whatever a run leaves on a list can still be run, if nothing was queued where there is no worker. */
  lemma QueuedCanRun(trace: seq<State>, steps: seq<Step>) returns (more: seq<State>, on: seq<Step>)
    requires IsRun(trace, steps)
    requires forall j :: 0 <= j < |steps| ==> AimsAtStaff(trace[0].pools, steps[j])
    ensures IsPath(Goes, more, on, trace[|steps|]) && AtRest(more[|on|]) && AllBegin(more, trace[|steps|])
  {
    RunInv(trace, steps, |steps|);
    RunStaffed(trace, steps, |steps|);
    more, on := EverythingRuns(trace[|steps|]);
  }

  /** An owner that finds its pool gone starts over: the next try may aim at any pool, or ends on a list. */
  lemma RetryAimsAnew(s: State, w: nat, pool: nat, wait: bool)
    requires Inv(s) && Enabled(s, Retry(w))
    ensures var t := Apply(s, Retry(w));
            Enabled(t, Queue(w, pool, wait))
            && var item := Apply(t, Queue(w, pool, wait)).works[w];
               if item.place == Nowhere then item.stage == Aimed(pool) else item.stage == Free && item.data.On?
  {
    assert WorkOk(s.pools, w in s.barriers, s.works[w]);
  }
}
