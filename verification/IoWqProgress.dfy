/**
 Nothing given to an io-wq is left lying: from every state of every run without a mistaken cancel,
 the workers alone can begin everything that waits, if every io-wq with waiting items has a worker.
 */
module IoWqProgress {
  import opened Maybe
  import opened Paths
  import opened Sums
  import opened IoWqList
  import opened IoWqHash
  import opened IoWqSafety
  import opened IoWqItems

  /** What workers do. */
  predicate WorkerStep(step: Step) { step.Take? || step.Clear? || (step.Done? && step.linked.None?) }

  predicate Staffed(s: State) { forall q :: 0 <= q < |s.wqs| && s.wqs[q].list != [] ==> q in s.owner }

  /** Nothing waits and nothing runs. */
  predicate AtRest(s: State) {
    && (forall q :: 0 <= q < |s.wqs| ==> s.wqs[q].list == [])
    && (forall v :: 0 <= v < |s.workers| ==> s.workers[v].Free?)
  }

  // ---------------------------------------------------------------- how much is left

  function Lengths(wqs: seq<Wq>): seq<nat> {
    seq(|wqs|, q requires 0 <= q < |wqs| => |wqs[q].list|)
  }

  function Load(w: Worker): nat {
    match w
    case Free => 0
    case Clearing(_, next) => if next.None? then 1 else 3
    case Busy(_, rest) => 2 + |rest|
  }

  function Loads(workers: seq<Worker>): seq<nat> {
    seq(|workers|, v requires 0 <= v < |workers| => Load(workers[v]))
  }

  predicate Nearer(t: State, s: State) {
    || Sum(Lengths(t.wqs)) < Sum(Lengths(s.wqs))
    || (Sum(Lengths(t.wqs)) == Sum(Lengths(s.wqs)) && Sum(Loads(t.workers)) < Sum(Loads(s.workers)))
  }

  lemma LoadLess(workers: seq<Worker>, v: nat, w: Worker)
    requires v < |workers| && Load(w) < Load(workers[v])
    ensures Sum(Loads(workers[v := w])) < Sum(Loads(workers))
  {
    SumLess(Loads(workers[v := w]), Loads(workers), v);
  }

  lemma WorkerNearer(s: State, step: Step)
    requires Enabled(s, step) && WorkerStep(step)
    ensures Nearer(Apply(s, step), s)
  {
    var t := Apply(s, step);
    if step.Take? {
      SumLess(Lengths(t.wqs), Lengths(s.wqs), s.owner[step.v]);
    } else {
      LoadLess(s.workers, step.v, t.workers[step.v]);
      assert t.workers == s.workers[step.v := t.workers[step.v]];
    }
  }

  /** With every worker free no bit is set. */
  lemma FreeMeansClear(s: State)
    requires Inv(s) && forall v :: 0 <= v < |s.workers| ==> s.workers[v].Free?
    ensures s.busy == {}
  {
    forall h: nat ensures h !in s.busy { assert !HeldBySome(s.workers, h); }
  }

  /** Short of rest some worker has something to do: no item waits for a bit that nobody will clear. */
  lemma NotStuck(s: State) returns (step: Step)
    requires Inv(s) && Staffed(s) && !AtRest(s)
    ensures Enabled(s, step) && WorkerStep(step)
  {
    if v :| 0 <= v < |s.workers| && !s.workers[v].Free? {
      step := if s.workers[v].Busy? then Done(v, None) else Clear(v);
    } else {
      FreeMeansClear(s);
      var q :| 0 <= q < |s.wqs| && s.wqs[q].list != [];
      var v :| 0 <= v < |s.owner| && s.owner[v] == q;
      step := Take(v, 0);
    }
  }

  // ---------------------------------------------------------------- everything begins

  /** Only a worker moves on the way from s to t. */
  predicate Goes(s: State, step: Step, t: State) { Enabled(s, step) && t == Apply(s, step) && WorkerStep(step) }

  ghost predicate Keeps(s: State, t: State) { forall x: Item :: Located(s, x) ==> Located(t, x) }

  lemma WorkerStaffed(s: State, step: Step)
    requires Staffed(s) && Enabled(s, step) && WorkerStep(step)
    ensures Staffed(Apply(s, step)) && Apply(s, step).owner == s.owner
  {
    var t := Apply(s, step);
    forall q | 0 <= q < |t.wqs| && t.wqs[q].list != []
      ensures q in t.owner
    {
      if step.Take? && q == s.owner[step.v] { assert s.owner[step.v] in s.owner; }
    }
  }

  lemma GoesNearer(s: State, step: Step)
    requires Inv(s) && Staffed(s) && Enabled(s, step) && WorkerStep(step)
    ensures var t := Apply(s, step); Inv(t) && Staffed(t) && Nearer(t, s) && Keeps(s, t)
  {
    forall x: Item | Located(s, x) ensures Located(Apply(s, step), x) { StepKeeps(s, step, x); }
    StepOk(s, step);
    WorkerStaffed(s, step);
    WorkerNearer(s, step);
  }

  /** The workers alone can begin everything that waits, and end it. */
  lemma {:induction false} EverythingBegins(s: State) returns (trace: seq<State>, steps: seq<Step>)
    requires Inv(s) && Staffed(s)
    ensures IsPath(Goes, trace, steps, s) && AtRest(trace[|steps|]) && Keeps(s, trace[|steps|])
    decreases Sum(Lengths(s.wqs)), Sum(Loads(s.workers))
  {
    if AtRest(s) {
      trace, steps := [s], [];
    } else {
      var step := NotStuck(s);
      var t := Apply(s, step);
      GoesNearer(s, step);
      var trace', steps' := EverythingBegins(t);
      PathFrom(Goes, trace', steps', s, step, t);
      trace, steps := [s] + trace', [step] + steps';
    }
  }

  /** In every careful run, an item given and not cancelled since has begun or can still be brought to begin. */
  lemma GivenCanBegin(trace: seq<State>, steps: seq<Step>, k: nat, x: Item)
    returns (more: seq<State>, on: seq<Step>)
    requires IsRun(trace, steps) && Careful(trace, steps) && k < |steps| && Gives(steps[k], x)
    requires forall j :: k < j < |steps| ==> !Cancels(trace[j], steps[j], x)
    requires Staffed(trace[|steps|])
    ensures IsPath(Goes, more, on, trace[|steps|]) && AtRest(more[|on|])
    ensures exists q :: 0 <= q < |more[|on|].begun| && x in more[|on|].begun[q]
  {
    RunInv(trace, steps, |steps|);
    NothingLost(trace, steps, k, |steps|, x);
    more, on := EverythingBegins(trace[|steps|]);
    assert Located(more[|on|], x);
  }
}
