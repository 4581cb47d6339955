/**
 What becomes of the items of a node's pwqs, over every run: each is active, waiting or being
 queued, until it retires or is cancelled; waiting items become active from the front and new ones
 wait at the end; and a pwq on the pending list moves up whenever another one is served.
 */
module NodeItems {
  import opened NodeActive
  import opened NodeActiveSafety

  // ---------------------------------------------------------------- none is lost

  /** The thread is queueing an item on the pwq. */
  function Hand(op: Op, p: nat): nat { if InTry(op) && op.p == p && op.why.Queue? then 1 else 0 }

  function HandAll(ops: seq<Op>, p: nat): nat { if ops == [] then 0 else Hand(ops[0], p) + HandAll(ops[1..], p) }

  lemma {:induction false} HandUpdate(ops: seq<Op>, t: nat, op: Op, p: nat)
    requires t < |ops|
    ensures HandAll(ops[t := op], p) == HandAll(ops, p) - Hand(ops[t], p) + Hand(op, p)
  {
    if t == 0 {
      assert ops[0 := op][1..] == ops[1..];
    } else {
      assert ops[t := op][1..] == ops[1..][t - 1 := op];
      HandUpdate(ops[1..], t - 1, op, p);
    }
  }

  lemma {:induction false} HandNone(ops: seq<Op>, p: nat)
    requires forall t :: 0 <= t < |ops| ==> ops[t].Idle?
    ensures HandAll(ops, p) == 0
  {
    if ops == [] {
    } else {
      HandNone(ops[1..], p);
    }
  }

  /** What the steps gave to the pwq, less what retired from it or was cancelled. */
  function Left(steps: seq<Step>, p: nat): int {
    if steps == [] then 0 else Left(steps[..|steps| - 1], p) + Change(steps[|steps| - 1], p)
  }

  function Change(step: Step, p: nat): int {
    match step
    case QueueStart(_, x, _) => if x == p then 1 else 0
    case RetireStart(_, x) => if x == p then -1 else 0
    case Cancel(x, _) => if x == p then -1 else 0
    case _ => 0
  }

  /** The items the pwq has. */
  function Items(s: State, p: nat): int
    requires p < |s.active| == |s.inactive|
  {
    s.active[p] + |s.inactive[p]| + HandAll(s.ops, p)
  }

  /** A thread's step that moves no item. */
  ghost predicate MovesNothing(s: State, s': State, t: nat) {
    && s'.active == s.active && s'.inactive == s.inactive && t < |s.ops| == |s'.ops| && s'.ops == s.ops[t := s'.ops[t]]
    && forall p: nat :: Hand(s'.ops[t], p) == Hand(s.ops[t], p)
  }

  lemma SameItems(s: State, s': State, t: nat, p: nat)
    requires p < |s.active| == |s.inactive| && MovesNothing(s, s', t)
    ensures Items(s', p) == Items(s, p)
  {
    HandUpdate(s.ops, t, s'.ops[t], p);
  }

  lemma TryMoves(s: State, t: nat)
    requires Enabled(s, Go(t)) && InTry(s.ops[t]) && !s.ops[t].Got? && !s.ops[t].Lost?
    ensures MovesNothing(s, TryStep(s, t), t)
  {
  }

  lemma FinishItems(s: State, t: nat, p: nat, floor: int)
    requires Inv(s, floor) && Enabled(s, Go(t)) && (s.ops[t].Got? || s.ops[t].Lost?) && p < |s.active|
    ensures p < |TryStep(s, t).active| == |TryStep(s, t).inactive| && Items(TryStep(s, t), p) == Items(s, p)
  {
    assert Fact(s.poolOf, s.pending, s.inactive, s.ops[t], floor);
    HandUpdate(s.ops, t, Idle, p);
  }

  lemma TryItems(s: State, t: nat, p: nat, floor: int)
    requires Inv(s, floor) && Enabled(s, Go(t)) && InTry(s.ops[t]) && p < |s.active|
    ensures p < |TryStep(s, t).active| == |TryStep(s, t).inactive| && Items(TryStep(s, t), p) == Items(s, p)
  {
    if s.ops[t].Got? || s.ops[t].Lost? {
      FinishItems(s, t, p, floor);
    } else {
      TryMoves(s, t);
      SameItems(s, TryStep(s, t), t, p);
    }
  }

  lemma RetireMoves(s: State, t: nat)
    requires Enabled(s, Go(t)) && !InTry(s.ops[t]) && !s.ops[t].ActMax?
    ensures MovesNothing(s, RetireStep(s, t), t)
  {
  }

  lemma ActivateItems(s: State, t: nat, p: nat, floor: int)
    requires Inv(s, floor) && Enabled(s, Go(t)) && s.ops[t].ActMax? && p < |s.active|
    ensures var s' := Activate(s, t, s.ops[t].m);
            p < |s'.active| == |s'.inactive| && Items(s', p) == Items(s, p)
  {
    assert Fact(s.poolOf, s.pending, s.inactive, s.ops[t], floor);
    HandUpdate(s.ops, t, Idle, p);
  }

  lemma RetireItems(s: State, t: nat, p: nat, floor: int)
    requires Inv(s, floor) && Enabled(s, Go(t)) && !InTry(s.ops[t]) && p < |s.active|
    ensures p < |RetireStep(s, t).active| == |RetireStep(s, t).inactive| && Items(RetireStep(s, t), p) == Items(s, p)
  {
    if s.ops[t].ActMax? {
      ActivateItems(s, t, p, floor);
    } else {
      RetireMoves(s, t);
      SameItems(s, RetireStep(s, t), t, p);
    }
  }

  lemma StartItems(s: State, step: Step, p: nat)
    requires Shape(s) && Enabled(s, step) && !step.Go? && p < |s.active|
    ensures p < |Apply(s, step).active| == |Apply(s, step).inactive|
    ensures Items(Apply(s, step), p) == Items(s, p) + Change(step, p)
  {
    match step
    case QueueStart(t, x, work) => HandUpdate(s.ops, t, Try1(x, Queue(work)), p);
    case FillStart(t, x) => HandUpdate(s.ops, t, Try1(x, Fill), p);
    case RetireStart(t, x) => HandUpdate(s.ops, t, Dec1(x), p);
    case Cancel(_, _) =>
    case SetMax(_) =>
  }

  lemma StepItems(s: State, step: Step, p: nat, floor: int)
    requires Inv(s, floor) && Enabled(s, step) && p < |s.active|
    ensures p < |Apply(s, step).active| == |Apply(s, step).inactive|
    ensures Items(Apply(s, step), p) == Items(s, p) + Change(step, p)
  {
    if step.Go? {
      if InTry(s.ops[step.t]) { TryItems(s, step.t, p, floor); } else { RetireItems(s, step.t, p, floor); }
    } else {
      StartItems(s, step, p);
    }
  }

  /** In every run: what was queued on a pwq and neither retired nor was cancelled is active, waiting or in hand. */
  lemma {:induction false} NothingLost(trace: seq<State>, steps: seq<Step>, i: nat, p: nat)
    requires IsRun(trace, steps) && i < |trace| && p < |trace[0].active|
    ensures p < |trace[i].active| == |trace[i].inactive|
    ensures trace[i].active[p] + |trace[i].inactive[p]| + HandAll(trace[i].ops, p) == Left(steps[..i], p)
  {
    if i == 0 {
      HandNone(trace[0].ops, p);
      assert steps[..0] == [];
    } else {
      NothingLost(trace, steps, i - 1, p);
      var floor := LowestMax(trace);
      RunInv(trace, steps, floor, i - 1);
      assert IsStep(trace, steps, i - 1);
      StepItems(trace[i - 1], steps[i - 1], p, floor);
      assert steps[..i][..i - 1] == steps[..i - 1];
    }
  }

  // ---------------------------------------------------------------- in order

  /** What waits was there before, from some place on, with new items behind. */
  ghost predicate FromFront(was: seq<nat>, now: seq<nat>) {
    exists k, more :: 0 <= k <= |was + more| && now == (was + more)[k..]
  }

  lemma FrontSame(was: seq<nat>)
    ensures FromFront(was, was)
  {
    var more: seq<nat> := [];
    assert was == (was + more)[0..];
  }

  lemma FrontTrans(a: seq<nat>, b: seq<nat>, c: seq<nat>)
    requires FromFront(a, b) && FromFront(b, c)
    ensures FromFront(a, c)
  {
    var k, more :| 0 <= k <= |a + more| && b == (a + more)[k..];
    var k', more' :| 0 <= k' <= |b + more'| && c == (b + more')[k'..];
    var all := more + more';
    assert (a + more)[k..] + more' == (a + all)[k..];
    assert c == (a + all)[k + k'..];
  }

  lemma FrontRest(was: seq<nat>)
    ensures FromFront(was, Rest(was))
  {
    var more: seq<nat> := [];
    assert was + more == was;
    assert Rest(was) == (was + more)[if was == [] then 0 else 1..];
  }

  lemma FrontMore(was: seq<nat>, x: nat)
    ensures FromFront(was, was + [x])
  {
    assert was + [x] == (was + [x])[0..];
  }

  lemma GoOrder(s: State, t: nat, p: nat)
    requires Shape(s) && Enabled(s, Go(t)) && p < |s.inactive|
    ensures p < |Apply(s, Go(t)).inactive| && FromFront(s.inactive[p], Apply(s, Go(t)).inactive[p])
  {
    var s' := Apply(s, Go(t));
    FrontSame(s.inactive[p]);
    FrontRest(s.inactive[p]);
    if s.ops[t].Lost? && s.ops[t].why.Queue? { FrontMore(s.inactive[p], s.ops[t].why.work); }
  }

  lemma StepOrder(s: State, step: Step, p: nat)
    requires Shape(s) && Enabled(s, step) && p < |s.inactive| && !(step.Cancel? && step.p == p)
    ensures p < |Apply(s, step).inactive| && FromFront(s.inactive[p], Apply(s, step).inactive[p])
  {
    FrontSame(s.inactive[p]);
    match step
    case Go(t) => GoOrder(s, t, p);
    case QueueStart(_, _, work) => FrontMore(s.inactive[p], work);
    case FillStart(_, _) =>
    case RetireStart(_, _) =>
    case Cancel(_, _) =>
    case SetMax(_) =>
  }

  /** Between cancels, waiting items leave from the front and new ones join at the end. */
  lemma {:induction false} WaitInOrder(trace: seq<State>, steps: seq<Step>, i: nat, j: nat, p: nat)
    requires IsRun(trace, steps) && i <= j < |trace| && p < |trace[i].inactive|
    requires forall x :: i <= x < j && steps[x].Cancel? ==> steps[x].p != p
    ensures p < |trace[j].inactive| && FromFront(trace[i].inactive[p], trace[j].inactive[p])
    decreases j - i
  {
    if i == j {
      FrontSame(trace[i].inactive[p]);
    } else {
      WaitInOrder(trace, steps, i, j - 1, p);
      var floor := LowestMax(trace);
      RunInv(trace, steps, floor, j - 1);
      assert IsStep(trace, steps, j - 1);
      StepOrder(trace[j - 1], steps[j - 1], p);
      FrontTrans(trace[i].inactive[p], trace[j - 1].inactive[p], trace[j].inactive[p]);
    }
  }

  // ---------------------------------------------------------------- in turn

  /** How many pwqs are ahead of p on the pending list. */
  function Ahead(pending: seq<nat>, p: nat): nat {
    if pending == [] || pending[0] == p then 0 else 1 + Ahead(pending[1..], p)
  }

  lemma {:induction false} AheadMore(pending: seq<nat>, p: nat, more: seq<nat>)
    requires p in pending
    ensures Ahead(pending + more, p) == Ahead(pending, p)
  {
    if pending[0] == p {
      assert (pending + more)[0] == p;
    } else {
      assert (pending + more)[1..] == pending[1..] + more;
      AheadMore(pending[1..], p, more);
    }
  }

  lemma {:induction false} AheadWithout(pending: seq<nat>, p: nat, x: nat)
    requires p in pending && x != p
    ensures Ahead(Without(pending, x), p) <= Ahead(pending, p)
  {
    if pending[0] == p {
    } else {
      AheadWithout(pending[1..], p, x);
    }
  }

  /** The step gives a count to a waiting item of another pwq than p, off the front of the pending list. */
  predicate ServesOther(s: State, step: Step, p: nat) {
    && step.Go? && step.t < |s.ops| && s.ops[step.t].ActMax? && s.nr < s.ops[step.t].m
    && s.pending != [] && s.pending[0] != p
  }

  lemma SearchTurn(s: State, step: Step, p: nat)
    requires Shape(s) && Enabled(s, step) && step.Go? && !InTry(s.ops[step.t])
    requires p in s.pending && p in Apply(s, step).pending && !(s.ops[step.t].ActMax? && s.pending[0] == p)
    requires s.pending[0] == p ==> p !in s.pending[1..]
    ensures Ahead(Apply(s, step).pending, p) <= Ahead(s.pending, p) - if ServesOther(s, step, p) then 1 else 0
  {
    var rest := s.pending[1..];
    if s.ops[step.t].ActMax? && s.pending[0] != p {
      assert p in rest;
      AheadMore(rest, p, [s.pending[0]]);
      assert rest + [] == rest;
    }
  }

  /** A pwq that stays pending and is not itself served never falls back, and moves up when another is served. */
  lemma StepTurn(s: State, step: Step, p: nat, floor: int)
    requires Inv(s, floor) && Enabled(s, step) && p in s.pending && p in Apply(s, step).pending
    requires !(step.Go? && s.ops[step.t].ActMax? && s.pending[0] == p)
    ensures Ahead(Apply(s, step).pending, p) <= Ahead(s.pending, p) - if ServesOther(s, step, p) then 1 else 0
  {
    if step.Go? && !InTry(s.ops[step.t]) {
      if s.pending[0] == p { OnceHead(s.pending, p); }
      SearchTurn(s, step, p);
    } else if step.Go? {
      var op := s.ops[step.t];
      if op.WantNna? { AheadMore(s.pending, p, [op.p]); }
      if op.Try2Max? && op.p != p { AheadWithout(s.pending, p, op.p); }
    }
  }

  /** On a list without repetition the head is not behind itself. */
  lemma OnceHead(pending: seq<nat>, p: nat)
    requires Once(pending) && pending != [] && pending[0] == p
    ensures p !in pending[1..]
  {
  }

  /** The services of other pwqs between two moments. */
  function Served(trace: seq<State>, steps: seq<Step>, i: nat, j: nat, p: nat): nat
    requires |trace| == |steps| + 1 && i <= j <= |steps|
    decreases j
  {
    if i == j then 0
    else Served(trace, steps, i, j - 1, p) + if ServesOther(trace[j - 1], steps[j - 1], p) then 1 else 0
  }

  /** The step tries to serve p. */
  predicate TriesFor(s: State, step: Step, p: nat) {
    step.Go? && step.t < |s.ops| && s.ops[step.t].ActMax? && s.pending != [] && s.pending[0] == p
  }

  /** While a pwq waits for its turn, at most as many others are served as were ahead of it. */
  lemma {:induction false} TurnComes(trace: seq<State>, steps: seq<Step>, i: nat, j: nat, p: nat)
    requires IsRun(trace, steps) && i <= j < |trace|
    requires forall x :: i <= x <= j ==> p in trace[x].pending
    requires forall x :: i <= x < j ==> !TriesFor(trace[x], steps[x], p)
    ensures Served(trace, steps, i, j, p) + Ahead(trace[j].pending, p) <= Ahead(trace[i].pending, p)
    decreases j - i
  {
    if i == j {
    } else {
      TurnComes(trace, steps, i, j - 1, p);
      var floor := LowestMax(trace);
      RunInv(trace, steps, floor, j - 1);
      assert IsStep(trace, steps, j - 1) && !TriesFor(trace[j - 1], steps[j - 1], p);
      StepTurn(trace[j - 1], steps[j - 1], p, floor);
    }
  }

  // ---------------------------------------------------------------- filling up

  /** A fill for a pwq with waiting items takes a free count for the first of them, if nothing comes between. */
  lemma FillServes(s: State, t: nat, p: nat)
    requires CanStart(s, t, p) && s.inactive[p] != [] && s.nr < s.max
    ensures Enabled(s, FillStart(t, p)) && Enabled(Apply(s, FillStart(t, p)), Go(t))
    ensures var s1 := Apply(s, FillStart(t, p));
            var s2 := Apply(s1, Go(t));
            && Enabled(s2, Go(t))
            && var s3 := Apply(s2, Go(t));
               && Enabled(s3, Go(t))
               && Apply(s3, Go(t)) == s.(nr := s.nr + 1, active := s.active[p := s.active[p] + 1],
                                         inactive := s.inactive[p := s.inactive[p][1..]])
  {
    var s1 := Apply(s, FillStart(t, p));
    var s2 := Apply(s1, Go(t));
    assert s2.ops == s.ops[t := Try1Max(p, Fill, s.max)];
    var s3 := Apply(s2, Go(t));
    assert s3.ops == s.ops[t := Got(p, Fill)];
    assert s.ops[t := Got(p, Fill)][t := Idle] == s.ops;
  }
}
