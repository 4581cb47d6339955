/**
 Operations on a node's counts end: whatever the schedule, no step of an operation under way and no
 retirement can be repeated for ever, and no two operations block each other.  With a limit of at
 least one, every waiting item becomes active once the active ones retire.
 */
module NodeProgress {
  import opened NodeActive
  import opened Paths
  import opened NodeActiveSafety
  import opened Sums

  /** The steps that bring in nothing and take nothing out: operations under way, and active items that end. */
  predicate GoesOn(step: Step) { step.Go? || step.RetireStart? }

  /** No operation is under way, nothing waits and nothing is active. */
  predicate AtRest(s: State) {
    && Quiet(s) && (forall p :: 0 <= p < |s.inactive| ==> s.inactive[p] == [])
    && (forall p :: 0 <= p < |s.active| ==> s.active[p] == 0)
  }

  // ---------------------------------------------------------------- how much is left

  function Queuing(op: Op): nat { if InTry(op) && op.why.Queue? then 1 else 0 }

  function TryRank(op: Op): nat {
    match op
    case Try1(_, _) => 6
    case Try1Max(_, _, _) => 5
    case WantNna(_, _) => 4
    case Try2(_, _, _) => 3
    case Try2Max(_, _, _, _) => 2
    case Got(_, _) => 1
    case Lost(_, _) => 1
    case _ => 0
  }

  /** The pool is not that of the first pwq on the pending list. */
  predicate Elsewhere(poolOf: seq<nat>, pending: seq<nat>, pool: nat) {
    pending != [] && pending[0] < |poolOf| && poolOf[pending[0]] != pool
  }

  function ActRank(poolOf: seq<nat>, pending: seq<nat>, op: Op): nat {
    match op
    case Dec1(_) => 11
    case Dec2(_, _) => 10
    case Dec3(_, _) => 9
    case ActWait(pool, _) => if Elsewhere(poolOf, pending, pool) then 8 else 5
    case Act(pool, _) => if Elsewhere(poolOf, pending, pool) then 7 else 4
    case ActIn(pool, _) => if Elsewhere(poolOf, pending, pool) then 6 else 3
    case ActTry(_, _) => 2
    case ActMax(_, _, _) => 1
    case _ => 0
  }

  function Queuings(ops: seq<Op>): seq<nat> {
    seq(|ops|, t requires 0 <= t < |ops| => Queuing(ops[t]))
  }

  function TryRanks(ops: seq<Op>): seq<nat> {
    seq(|ops|, t requires 0 <= t < |ops| => TryRank(ops[t]))
  }

  function ActRanks(poolOf: seq<nat>, pending: seq<nat>, ops: seq<Op>): seq<nat> {
    seq(|ops|, t requires 0 <= t < |ops| => ActRank(poolOf, pending, ops[t]))
  }

  function Lengths(inactive: seq<seq<nat>>): seq<nat> {
    seq(|inactive|, p requires 0 <= p < |inactive| => |inactive[p]|)
  }

  /** Items being queued, items that wait, active items, steps of tries, pwqs to look at, steps of retirements. */
  datatype Left = Left(queuing: nat, waiting: nat, active: nat, tries: nat, pending: nat, acts: nat)

  function Remaining(s: State): Left {
    Left(Sum(Queuings(s.ops)), Sum(Lengths(s.inactive)), Sum(s.active), Sum(TryRanks(s.ops)), |s.pending|,
         Sum(ActRanks(s.poolOf, s.pending, s.ops)))
  }

  predicate Less(a: Left, b: Left) {
    || a.queuing < b.queuing
    || (a.queuing == b.queuing && a.waiting < b.waiting)
    || (a.queuing == b.queuing && a.waiting == b.waiting && a.active < b.active)
    || (a.queuing == b.queuing && a.waiting == b.waiting && a.active == b.active && LessSteps(a, b))
  }

  predicate LessSteps(a: Left, b: Left) {
    || a.tries < b.tries
    || (a.tries == b.tries && a.pending < b.pending)
    || (a.tries == b.tries && a.pending == b.pending && a.acts < b.acts)
  }

  predicate Nearer(t: State, s: State) { Less(Remaining(t), Remaining(s)) }

  lemma OpMoves(ops: seq<Op>, t: nat, op: Op)
    requires t < |ops|
    ensures Sum(Queuings(ops[t := op])) == Sum(Queuings(ops)) - Queuing(ops[t]) + Queuing(op)
    ensures Sum(TryRanks(ops[t := op])) == Sum(TryRanks(ops)) - TryRank(ops[t]) + TryRank(op)
  {
    SumUpdate(Queuings(ops), t, Queuing(op));
    assert Queuings(ops[t := op]) == Queuings(ops)[t := Queuing(op)];
    SumUpdate(TryRanks(ops), t, TryRank(op));
    assert TryRanks(ops[t := op]) == TryRanks(ops)[t := TryRank(op)];
  }

  lemma ActMoves(poolOf: seq<nat>, pending: seq<nat>, ops: seq<Op>, t: nat, op: Op)
    requires t < |ops|
    ensures Sum(ActRanks(poolOf, pending, ops[t := op]))
            == Sum(ActRanks(poolOf, pending, ops)) - ActRank(poolOf, pending, ops[t]) + ActRank(poolOf, pending, op)
  {
    SumUpdate(ActRanks(poolOf, pending, ops), t, ActRank(poolOf, pending, op));
    assert ActRanks(poolOf, pending, ops[t := op]) == ActRanks(poolOf, pending, ops)[t := ActRank(poolOf, pending, op)];
  }

  lemma WaitingMoves(inactive: seq<seq<nat>>, p: nat, list: seq<nat>)
    requires p < |inactive|
    ensures Sum(Lengths(inactive[p := list])) == Sum(Lengths(inactive)) - |inactive[p]| + |list|
  {
    SumUpdate(Lengths(inactive), p, |list|);
    assert Lengths(inactive[p := list]) == Lengths(inactive)[p := |list|];
  }

  // ---------------------------------------------------------------- every step brings the end nearer

  /** A try that is not over: only the thread's place, nr and the pending list change. */
  lemma TryNearer(s: State, t: nat)
    requires Enabled(s, Go(t)) && InTry(s.ops[t]) && !s.ops[t].Got? && !s.ops[t].Lost?
    ensures Nearer(TryStep(s, t), s)
  {
    var s' := TryStep(s, t);
    OpMoves(s.ops, t, s'.ops[t]);
    assert s'.ops == s.ops[t := s'.ops[t]];
  }

  lemma FinishNearer(s: State, t: nat, floor: int)
    requires Inv(s, floor) && Enabled(s, Go(t)) && (s.ops[t].Got? || s.ops[t].Lost?)
    ensures Nearer(TryStep(s, t), s)
  {
    OpMoves(s.ops, t, Idle);
    var p := s.ops[t].p;
    assert Fact(s.poolOf, s.pending, s.inactive, s.ops[t], floor);
    if s.ops[t].why.Fill? && s.ops[t].Got? { WaitingMoves(s.inactive, p, Rest(s.inactive[p])); }
  }

  /** Only a retiring thread's place changes, and perhaps nr. */
  lemma ActOnly(s: State, s': State, t: nat, op: Op)
    requires t < |s.ops| && s'.ops == s.ops[t := op]
    requires s'.pending == s.pending && s'.poolOf == s.poolOf && s'.active == s.active && s'.inactive == s.inactive
    requires !InTry(s.ops[t]) && !InTry(op)
    requires ActRank(s.poolOf, s.pending, op) < ActRank(s.poolOf, s.pending, s.ops[t])
    ensures Nearer(s', s)
  {
    OpMoves(s.ops, t, op);
    ActMoves(s.poolOf, s.pending, s.ops, t, op);
  }

  lemma SearchNearer(s: State, t: nat)
    requires Enabled(s, Go(t)) && s.ops[t].ActIn?
    ensures Nearer(Search(s, t, s.ops[t].pool, s.ops[t].v), s)
  {
    var s' := Search(s, t, s.ops[t].pool, s.ops[t].v);
    if s'.pending == s.pending { ActOnly(s, s', t, s'.ops[t]); }
  }

  lemma ActivateNearer(s: State, t: nat, floor: int)
    requires Inv(s, floor) && Enabled(s, Go(t)) && s.ops[t].ActMax?
    ensures Nearer(RetireStep(s, t), s)
  {
    assert Fact(s.poolOf, s.pending, s.inactive, s.ops[t], floor);
    OpMoves(s.ops, t, Idle);
    ActMoves(s.poolOf, s.pending, s.ops, t, Idle);
    var x := s.pending[0];
    WaitingMoves(s.inactive, x, Rest(s.inactive[x]));
  }

  lemma RetireNearer(s: State, t: nat)
    requires Enabled(s, Go(t)) && !InTry(s.ops[t]) && !s.ops[t].ActIn? && !s.ops[t].ActMax?
    ensures Nearer(RetireStep(s, t), s)
  {
    var s' := RetireStep(s, t);
    ActOnly(s, s', t, s'.ops[t]);
  }

  lemma StartNearer(s: State, t: nat, p: nat)
    requires Enabled(s, RetireStart(t, p))
    ensures Nearer(Apply(s, RetireStart(t, p)), s)
  {
    OpMoves(s.ops, t, Dec1(p));
    SumUpdate(s.active, p, s.active[p] - 1);
  }

  lemma ActNearer(s: State, t: nat, floor: int)
    requires Inv(s, floor) && Enabled(s, Go(t)) && !InTry(s.ops[t])
    ensures Nearer(RetireStep(s, t), s)
  {
    if s.ops[t].ActIn? {
      SearchNearer(s, t);
    } else if s.ops[t].ActMax? {
      ActivateNearer(s, t, floor);
    } else {
      RetireNearer(s, t);
    }
  }

  /** Whatever goes on, in whatever order, brings the node nearer to rest. */
  lemma StepNearer(s: State, step: Step, floor: int)
    requires Inv(s, floor) && Enabled(s, step) && GoesOn(step)
    ensures Nearer(Apply(s, step), s)
  {
    if step.RetireStart? {
      StartNearer(s, step.t, step.p);
    } else if !InTry(s.ops[step.t]) {
      ActNearer(s, step.t, floor);
    } else if s.ops[step.t].Got? || s.ops[step.t].Lost? {
      FinishNearer(s, step.t, floor);
    } else {
      TryNearer(s, step.t);
    }
  }

  // ---------------------------------------------------------------- nobody blocks

  /** Of operations under way, one at least is not blocked by a lock. */
  lemma NoDeadlock(s: State) returns (t: nat)
    requires Shape(s) && !Quiet(s)
    ensures Enabled(s, Go(t))
  {
    if u :| 0 <= u < |s.ops| && NnaHeld(s.ops[u]) {
      t := u;
    } else if u :| 0 <= u < |s.ops| && !s.ops[u].Idle? && !s.ops[u].ActWait? {
      t := u;
    } else {
      t :| 0 <= t < |s.ops| && !s.ops[t].Idle?;
      assert forall u :: 0 <= u < |s.ops| ==> PoolHeld(s.poolOf, s.ops[u]) == -1;
    }
  }

  /** With no operation under way, short of rest some item is active. */
  lemma SomeActive(s: State) returns (p: nat)
    requires Inv(s, 1) && Quiet(s) && !AtRest(s)
    ensures p < |s.active| && s.active[p] > 0
  {
    if x :| 0 <= x < |s.inactive| && s.inactive[x] != [] {
      QuietSums(s.ops, 1);
      assert x in s.pending && !Windowed(s.ops, x);
      SumPositive(s.active);
    }
    p :| 0 <= p < |s.active| && s.active[p] > 0;
  }

  /** Short of rest something can go on. */
  lemma NotStuck(s: State) returns (step: Step)
    requires Inv(s, 1) && |s.ops| > 0 && !AtRest(s)
    ensures Enabled(s, step) && GoesOn(step)
  {
    if Quiet(s) {
      var p := SomeActive(s);
      step := RetireStart(0, p);
    } else {
      var t := NoDeadlock(s);
      step := Go(t);
    }
  }

  // ---------------------------------------------------------------- everything that waits becomes active

  /** Nothing is added on the way from s to t. */
  predicate Goes(s: State, step: Step, t: State) { Enabled(s, step) && t == Apply(s, step) && GoesOn(step) }

  lemma StepKeeps(s: State, step: Step)
    requires Enabled(s, step) && GoesOn(step)
    ensures Apply(s, step).max == s.max && |Apply(s, step).ops| == |s.ops|
  {
  }

  lemma GoesNearer(s: State, step: Step)
    requires Inv(s, 1) && s.max >= 1 && Enabled(s, step) && GoesOn(step)
    ensures var t := Apply(s, step);
            Inv(t, 1) && t.max == s.max && |t.ops| == |s.ops| && Nearer(t, s)
  {
    StepOk(s, step, 1);
    StepKeeps(s, step);
    StepNearer(s, step, 1);
  }

  /** From every state with a limit of at least one, all that waits can become active and end. */
  lemma {:induction false} ComesToRest(s: State) returns (trace: seq<State>, steps: seq<Step>)
    requires Inv(s, 1) && s.max >= 1 && |s.ops| > 0
    ensures IsPath(Goes, trace, steps, s) && AtRest(trace[|steps|])
    decreases Remaining(s).queuing, Remaining(s).waiting, Remaining(s).active, Remaining(s).tries,
              Remaining(s).pending, Remaining(s).acts
  {
    if AtRest(s) {
      trace, steps := [s], [];
    } else {
      var step := NotStuck(s);
      var t := Apply(s, step);
      GoesNearer(s, step);
      var trace', steps' := ComesToRest(t);
      PathFrom(Goes, trace', steps', s, step, t);
      trace, steps := [s] + trace', [step] + steps';
    }
  }

  /** Whatever waits at the end of a run whose limit stayed at one or above can still become active. */
  lemma WaitingCanRun(trace: seq<State>, steps: seq<Step>) returns (more: seq<State>, on: seq<Step>)
    requires IsRun(trace, steps) && Floor(trace, 1) && |trace[|steps|].ops| > 0
    ensures IsPath(Goes, more, on, trace[|steps|]) && AtRest(more[|on|])
  {
    RunInv(trace, steps, 1, |steps|);
    more, on := ComesToRest(trace[|steps|]);
  }
}
