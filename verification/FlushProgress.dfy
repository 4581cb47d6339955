/**
 A flush that starts completes.  In every run a flusher that has started is done, or first, or on
 one of the two lists, so that a workqueue at rest has completed them all.  A workqueue that is not
 at rest has something to go on with, and whatever goes on, as long as no work and no flush is
 added, brings it nearer to rest.
 */
module FlushProgress {
  import opened Maybe
  import opened Paths
  import opened FlushProtocol
  import opened FlushSafety

  /** Some step before position i started the flush of f. */
  predicate StartedBy(steps: seq<Step>, i: nat, f: Flusher) {
    exists k :: 0 <= k < i && k < |steps| && steps[k] == StartFlush(f)
  }

  /** The flusher is done, or known to those who will complete it. */
  predicate Accounted(s: State, f: Flusher) {
    f in s.done || s.first == Some(f) || f in Flushers(s.queue) || f in s.overflow
  }

  /** No one holds the mutex and no flush is in progress. */
  predicate AtRest(s: State) { s.holder.Unlocked? && s.first.None? }

  lemma QueueIn(queue: seq<Waiting>, i: nat)
    requires i < |queue|
    ensures queue[i].f in Flushers(queue)
  {
  }

  lemma {:induction false} WithoutKeeps(queue: seq<Waiting>, f: Flusher, g: Flusher)
    requires g in Flushers(queue) && g != f
    ensures g in Flushers(Without(queue, f))
  {
    var i :| 0 <= i < |queue| && queue[i].f == g;
    if queue[0].f == f {
      assert queue[1..][i - 1].f == g;
    } else if i == 0 {
      assert Without(queue, f)[0].f == g;
    } else {
      QueueIn(queue[1..], i - 1);
      WithoutKeeps(queue[1..], f, g);
      var rest := Without(queue[1..], f);
      var j :| 0 <= j < |rest| && rest[j].f == g;
      assert Without(queue, f)[j + 1].f == g;
    }
  }

  lemma StartAccounts(s: State, f: Flusher, g: Flusher)
    requires s.colors > 0 && (Accounted(s, g) || g == f)
    ensures Accounted(Start(s, f), g)
  {
    var t := Start(s, f);
    if g in Flushers(s.queue) {
      var i :| 0 <= i < |s.queue| && s.queue[i].f == g;
      assert t.queue[i].f == g;
    }
    if g == f && |t.queue| > |s.queue| { assert t.queue[|s.queue|].f == f; }
  }

  /** Preparing forgets no flusher: one that has nothing to wait for is done when it makes way. */
  lemma FinishAccounts(s: State, g: Flusher)
    requires Control(s) && Enabled(s, EndPrep) && Accounted(s, g)
    ensures Accounted(FinishPrep(s), g)
  {
  }

  lemma CompleteAccounts(s: State, g: Flusher)
    requires s.colors > 0 && Accounted(s, g)
    ensures Accounted(CompleteColor(s), g)
  {
    var t, k := CompleteColor(s), LeadLength(s.queue, s.flushColor);
    if g in Flushers(s.queue) {
      var i :| 0 <= i < |s.queue| && s.queue[i].f == g;
      if i < k { QueueIn(s.queue[..k], i); } else { assert t.queue[i - k].f == g; }
    }
    if g in s.overflow {
      var i :| 0 <= i < |s.overflow| && s.overflow[i] == g;
      assert t.queue[|s.queue| - k + i].f == g;
    }
  }

  lemma ArmAccounts(s: State, g: Flusher)
    requires Control(s) && s.holder.CascadeNext? && Accounted(s, g)
    ensures Accounted(ArmNext(s), g)
  {
    if g in Flushers(s.queue) && s.holder.next.Some? && g != s.holder.next.value {
      WithoutKeeps(s.queue, s.holder.next.value, g);
    }
  }

  /** The steps that move no flusher but the first, which is woken when it is done. */
  lemma OtherAccounts(s: State, step: Step, g: Flusher)
    requires Enabled(s, step) && Accounted(s, g)
    requires !step.StartFlush? && !step.EndPrep? && !step.CascadeComplete? && !step.CascadeAdvance?
    ensures Accounted(Apply(s, step), g)
  {
    var t := Apply(s, step);
    assert t.queue == s.queue && t.overflow == s.overflow && s.done <= t.done;
    assert t.first == s.first || (step.WakeFlusher? && step.f in s.done);
  }

  lemma StepAccounts(s: State, step: Step, g: Flusher)
    requires Control(s) && Enabled(s, step) && (Accounted(s, g) || step == StartFlush(g))
    ensures Accounted(Apply(s, step), g)
  {
    if step.StartFlush? {
      StartAccounts(s, step.f, g);
    } else if step.EndPrep? {
      FinishAccounts(s, g);
    } else if step.CascadeComplete? {
      CompleteAccounts(s, g);
    } else if step.CascadeAdvance? {
      ArmAccounts(s, g);
    } else {
      OtherAccounts(s, step, g);
    }
  }

  /** In every run a flusher that has started is done, first, on the queue or in the overflow. */
  lemma {:induction false} StartedIsAccounted(trace: seq<State>, steps: seq<Step>, i: nat, f: Flusher)
    requires IsRun(trace, steps) && i < |trace| && StartedBy(steps, i, f)
    ensures Accounted(trace[i], f)
  {
    assert IsStep(trace, steps, i - 1);
    RunInv(trace, steps, i - 1);
    if StartedBy(steps, i - 1, f) {
      StartedIsAccounted(trace, steps, i - 1, f);
    } else {
      var k :| 0 <= k < i && k < |steps| && steps[k] == StartFlush(f);
      assert k == i - 1;
    }
    StepAccounts(trace[i - 1], steps[i - 1], f);
  }

  /** A workqueue at rest has completed every flush that started. */
  lemma RestMeansDone(trace: seq<State>, steps: seq<Step>, i: nat, f: Flusher)
    requires IsRun(trace, steps) && i < |trace| && StartedBy(steps, i, f) && AtRest(trace[i])
    ensures f in trace[i].done
  {
    StartedIsAccounted(trace, steps, i, f);
    RunInv(trace, steps, i);
  }

  // ----- something to go on with -----

  /** An item whose end the first flusher waits for. */
  predicate Awaited(s: State, id: WorkId) {
    id in s.h.live && s.h.live[id].pwq < |s.pwqs| && s.h.live[id].color == s.flushColor
    && s.pwqs[s.h.live[id].pwq].flushColor == s.flushColor
  }

  lemma SomeAwaited(s: State) returns (id: WorkId)
    requires Work(s) && Completion(s) && s.toFlush > 0 && !Arming(s)
    ensures Awaited(s, id)
  {
    var p :| p in Armed(s.pwqs);
    assert PwqCounts(s.colors, s.pwqs[p], s.h.live, p);
    assert |At(s.h.live, p, s.flushColor)| > 0;
    id :| id in At(s.h.live, p, s.flushColor);
  }

  /** The steps that add neither work nor flushes. */
  predicate GoesOn(step: Step) {
    !step.QueueWork? && !step.InsertBarrier? && !step.CallFlush? && !step.StartFlush?
  }

  /** Short of rest there is a step that goes on, and none is needed but the end of an awaited item. */
  lemma NotStuck(s: State) returns (step: Step)
    requires Inv(s) && !s.strayed && !AtRest(s)
    ensures Enabled(s, step) && GoesOn(step) && (step.Retire? ==> Awaited(s, step.id))
  {
    InvSized(s);
    match s.holder
    case Unlocked =>
      if s.first.value in s.done {
        step := WakeFlusher(s.first.value);
      } else if s.wake {
        step := CompleteFirst;
      } else {
        var id := SomeAwaited(s);
        step := Retire(id);
      }
    case Prep(cursor, _, _, _, _) => step := if cursor < |s.pwqs| then PrepPwq else EndPrep;
    case CascadeTop => step := CascadeComplete;
    case CascadeNext(_) => step := CascadeAdvance;
  }

  /** Whoever has started and is not done waits for the holder of the mutex, a completion or an item's end. */
  lemma WaitsForSomething(trace: seq<State>, steps: seq<Step>, i: nat, f: Flusher)
    requires IsRun(trace, steps) && i < |trace| && StartedBy(steps, i, f) && f !in trace[i].done
    ensures var s := trace[i];
            s.holder.Unlocked? ==>
              s.first.Some? && (s.first.value in s.done || s.wake || exists id :: Awaited(s, id))
  {
    var s := trace[i];
    RunInv(trace, steps, i);
    if s.holder.Unlocked? {
      if s.first.None? { RestMeansDone(trace, steps, i, f); }
      if s.toFlush > 0 { var id := SomeAwaited(s); }
    }
  }

  // ----- nearer to rest -----

  /** The colours still to finish, the overflow being one more. */
  function ColorsLeft(s: State): int { s.h.workEpoch - s.h.flushEpoch + if s.overflow == [] then 0 else 1 }

  /** How far a colour has come, from the splicing of the overflow to the top of the cascade. */
  function Phase(s: State): nat {
    match s.holder
    case Prep(_, _, _, _, after) => if after.Spliced? then 6 else 4
    case CascadeNext(_) => 5
    case Unlocked =>
      if s.first.None? then 0 else if s.first.value in s.done then 1 else if s.wake then 2 else 3
    case CascadeTop => 0
  }

  function PwqsLeft(s: State): int { if s.holder.Prep? then |s.pwqs| - s.holder.cursor else 0 }

  function WakesLeft(s: State): nat { if s.wake then 1 else 0 }

  /** Less to do, in this order: colours, the way of a colour, pwqs to prepare, items, the completion. */
  predicate Nearer(t: State, s: State) {
    if ColorsLeft(t) != ColorsLeft(s) then ColorsLeft(t) < ColorsLeft(s)
    else if Phase(t) != Phase(s) then Phase(t) < Phase(s)
    else if PwqsLeft(t) != PwqsLeft(s) then PwqsLeft(t) < PwqsLeft(s)
    else if |t.h.live| != |s.h.live| then |t.h.live| < |s.h.live|
    else WakesLeft(t) < WakesLeft(s)
  }

  lemma OneLess(live: map<WorkId, Item>, id: WorkId)
    requires id in live
    ensures |live - {id}| < |live|
  {
    assert live.Keys == (live - {id}).Keys + {id};
    assert |live.Keys| == |live| && |(live - {id}).Keys| == |live - {id}|;
  }

  lemma RetireNearer(s: State, id: WorkId)
    requires Enabled(s, Retire(id)) && (s.wake ==> s.toFlush == 0)
    ensures Nearer(Drop(s, id), s)
  {
    var t := Drop(s, id);
    OneLess(s.h.live, id);
    assert ColorsLeft(t) == ColorsLeft(s) && PwqsLeft(t) == PwqsLeft(s);
    assert t.holder == s.holder && t.first == s.first && t.done == s.done && (s.wake ==> t.wake);
  }

  lemma EndNearer(s: State)
    requires Control(s) && Enabled(s, EndPrep)
    ensures Nearer(FinishPrep(s), s)
  {
  }

  lemma PrepNearer(s: State)
    requires Enabled(s, PrepPwq)
    ensures Nearer(Apply(s, PrepPwq), s)
  {
    var t := Apply(s, PrepPwq);
    assert t.holder == s.holder.(cursor := s.holder.cursor + 1, wait := t.holder.wait) && |t.pwqs| == |s.pwqs|;
    assert t.overflow == s.overflow && t.h.workEpoch == s.h.workEpoch && t.h.flushEpoch == s.h.flushEpoch;
  }

  lemma WakeNearer(s: State, step: Step)
    requires Control(s) && Enabled(s, step) && (step.CompleteFirst? || step.WakeFlusher?)
    ensures Nearer(Apply(s, step), s)
  {
  }

  lemma CascadeNearer(s: State, step: Step)
    requires Control(s) && Enabled(s, step) && (step.CascadeComplete? || step.CascadeAdvance?)
    requires !Apply(s, step).strayed
    ensures Nearer(Apply(s, step), s)
  {
  }

  /** Whatever goes on brings the workqueue nearer to rest. */
  lemma StepNearer(s: State, step: Step)
    requires Control(s) && Enabled(s, step) && GoesOn(step) && !Apply(s, step).strayed
    ensures Nearer(Apply(s, step), s)
  {
    if step.Retire? {
      RetireNearer(s, step.id);
    } else if step.EndPrep? {
      EndNearer(s);
    } else if step.PrepPwq? {
      PrepNearer(s);
    } else if step.CompleteFirst? || step.WakeFlusher? {
      WakeNearer(s, step);
    } else {
      CascadeNearer(s, step);
    }
  }

  /** Nothing is added on the way from s to t. */
  predicate Goes(s: State, step: Step, t: State) { Enabled(s, step) && t == Apply(s, step) && GoesOn(step) }

  /** No flusher is forgotten. */
  ghost predicate Keeps(s: State, t: State) { forall f: Flusher :: Accounted(s, f) ==> Accounted(t, f) }

  lemma GoesNearer(s: State, step: Step)
    requires Inv(s) && s.colors > 2 && Enabled(s, step) && GoesOn(step)
    ensures var t := Apply(s, step);
            Inv(t) && t.colors > 2 && Nearer(t, s) && ColorsLeft(t) >= 0 && PwqsLeft(t) >= 0 && Keeps(s, t)
  {
    forall f: Flusher | Accounted(s, f) ensures Accounted(Apply(s, step), f) { StepAccounts(s, step, f); }
    StepOk(s, step);
    KeepsColors(s, step);
    StepNearer(s, step);
  }

  /** From every state of three colours and up, the workqueue can come to rest with nothing added. */
  lemma {:induction false} ComesToRest(s: State) returns (trace: seq<State>, steps: seq<Step>)
    requires Inv(s) && s.colors > 2
    ensures IsPath(Goes, trace, steps, s) && AtRest(trace[|steps|]) && Keeps(s, trace[|steps|]) && Inv(trace[|steps|])
    decreases ColorsLeft(s), Phase(s), PwqsLeft(s), |s.h.live|, WakesLeft(s)
  {
    if AtRest(s) {
      trace, steps := [s], [];
    } else {
      var step := NotStuck(s);
      GoesNearer(s, step);
      var trace', steps' := ComesToRest(Apply(s, step));
      PathFrom(Goes, trace', steps', s, step, Apply(s, step));
      trace, steps := [s] + trace', [step] + steps';
    }
  }

  /** A flush that has started in a run of three colours and up can complete with nothing added. */
  lemma FlushCompletes(trace: seq<State>, steps: seq<Step>, f: Flusher) returns (more: seq<State>, on: seq<Step>)
    requires IsRun(trace, steps) && StartedBy(steps, |steps|, f) && trace[0].colors > 2
    ensures IsPath(Goes, more, on, trace[|steps|]) && AtRest(more[|on|]) && f in more[|on|].done
  {
    RunInv(trace, steps, |steps|);
    StartedIsAccounted(trace, steps, |steps|, f);
    ColorsFixed(trace, steps, |steps|);
    more, on := ComesToRest(trace[|steps|]);
  }
}
