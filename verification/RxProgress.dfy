/**
 The receive path comes to an end: once no packets come in, no schedule of the packets' threads and
 of the poll goes on for ever, and it ends only when every packet that got into the queue has been
 handed on or freed and every packet's thread is through.
 */
module RxProgress {
  import opened Maybe
  import opened RxPipeline
  import opened RxSafety

  /** The steps other than the arrival of a packet. */
  predicate GoesOn(step: Step) { !step.Enter? && !step.EnterUnknown? }

  /** Every packet's thread is through, and the poll is neither running nor scheduled. */
  predicate AtRest(s: State) {
    !s.sched && forall p :: p in s.stage ==> s.stage[p].Woken? || s.stage[p].Rejected?
  }

  // ----- how much is left -----

  function StageRank(stage: Stage): nat {
    match stage
    case Entered => 10
    case Reserved => 9
    case Nulled => 8
    case Exchanged(_) => 7
    case Linked => 6
    case Ringed => 5
    case Decided(_) => 4
    case Stored => 3
    case SawTail(_) => 2
    case Refused(_, _) => 1
    case Woken => 0
    case Rejected => 0
  }

  ghost function AnyOf(stage: map<Pkt, Stage>): Pkt
    requires stage != map[]
    ensures AnyOf(stage) in stage
  {
    var p :| p in stage;
    p
  }

  ghost function Ranks(stage: map<Pkt, Stage>): nat
    decreases |stage|
  {
    if stage == map[] then 0
    else var p := AnyOf(stage); StageRank(stage[p]) + Ranks(stage - {p})
  }

  lemma {:induction false} RanksAt(stage: map<Pkt, Stage>, p: Pkt)
    requires p in stage
    ensures Ranks(stage) == StageRank(stage[p]) + Ranks(stage - {p})
    decreases |stage|
  {
    var q := AnyOf(stage);
    if q != p {
      RanksAt(stage - {q}, p);
      RanksAt(stage - {p}, q);
      assert stage - {q} - {p} == stage - {p} - {q};
    }
  }

  lemma RanksLess(stage: map<Pkt, Stage>, p: Pkt, x: Stage)
    requires p in stage && StageRank(x) < StageRank(stage[p])
    ensures Ranks(stage[p := x]) < Ranks(stage)
  {
    RanksAt(stage, p);
    RanksAt(stage[p := x], p);
    assert stage[p := x] - {p} == stage - {p};
  }

  function PollRank(poll: Poll): nat {
    match poll
    case Off => 15
    case Top => 14
    case LoadFirst => 13
    case StoreFirst(_) => 12
    case LoadSecond(_) => 11
    case CheckHead(_) => 10
    case StubNull(_) => 9
    case StubXchg(_) => 8
    case StubLink(_, _) => 7
    case LoadThird(_) => 6
    case StoreTail(_, _) => 5
    case Decrement(_) => 4
    case CheckState(_) => 3
    case Dispose(_) => 2
    case Stop => 1
  }

  function Bit(b: bool): nat { if b then 1 else 0 }

  ghost predicate Nearer(t: State, s: State) {
    || Ranks(t.stage) < Ranks(s.stage)
    || (t.stage == s.stage && PollNearer(t, s))
  }

  /** Fewer packets in the queue, or as many and fewer polls to come, or a step further in this one. */
  predicate PollNearer(t: State, s: State) {
    var a, b := |t.h.order| - |t.h.gone|, |s.h.order| - |s.h.gone|;
    || a < b
    || (a == b && Bit(t.missed) < Bit(s.missed))
    || (a == b && t.missed == s.missed && Bit(t.sched) < Bit(s.sched))
    || (a == b && t.missed == s.missed && t.sched == s.sched && PollRank(t.poll) < PollRank(s.poll))
  }

  // ----- every step brings the end nearer -----

  /** A step within a poll that neither disposes of a packet nor ends the poll. */
  predicate Further(s: State, t: State) {
    && t.stage == s.stage && t.h.order == s.h.order && t.h.gone == s.h.gone
    && t.missed == s.missed && t.sched == s.sched && PollRank(t.poll) < PollRank(s.poll)
  }

  lemma LoadsFurther(s: State, more: bool)
    requires s.poll.LoadFirst? || s.poll.LoadSecond? || s.poll.LoadThird?
    ensures Further(s, Advance(s, more))
  {
  }

  lemma ChecksFurther(s: State, more: bool)
    requires s.poll.Off? || s.poll.Top? || s.poll.CheckHead? || s.poll.CheckState?
    ensures Further(s, Advance(s, more))
  {
  }

  lemma StoresFurther(s: State, more: bool)
    requires s.poll.StoreFirst? || s.poll.StoreTail? || s.poll.Decrement?
    ensures Further(s, Advance(s, more))
  {
  }

  lemma StubFurther(s: State, more: bool)
    requires s.poll.StubNull? || s.poll.StubXchg? || s.poll.StubLink?
    ensures Further(s, Advance(s, more))
  {
  }

  lemma EndNearer(s: State, more: bool)
    requires (s.poll.Stop? && s.sched) || s.poll.Dispose?
    ensures Advance(s, more).stage == s.stage && PollNearer(Advance(s, more), s)
  {
    if s.poll.Dispose? { assert Advance(s, more) == Disposed(s, s.poll.t, more); }
  }

  lemma AdvanceNearer(s: State, more: bool)
    requires PollOk(s)
    ensures Nearer(Advance(s, more), s)
  {
    if s.poll.LoadFirst? || s.poll.LoadSecond? || s.poll.LoadThird? {
      LoadsFurther(s, more);
    } else if s.poll.StoreFirst? || s.poll.StoreTail? || s.poll.Decrement? {
      StoresFurther(s, more);
    } else if s.poll.StubNull? || s.poll.StubXchg? || s.poll.StubLink? {
      StubFurther(s, more);
    } else if s.poll.Stop? || s.poll.Dispose? {
      EndNearer(s, more);
    } else {
      ChecksFurther(s, more);
    }
  }

  /** A thread's step takes its packet a stage further and touches no other's. */
  predicate OneFurther(s: State, t: State, p: Pkt) {
    && p in s.stage && p in t.stage && t.stage == s.stage[p := t.stage[p]]
    && StageRank(t.stage[p]) < StageRank(s.stage[p])
  }

  lemma EntryFurther(s: State, step: Step)
    requires Enabled(s, step)
    requires step.PeerDead? || step.Discard? || step.Reserve? || step.NullNext? || step.Exchange? || step.Link?
    ensures OneFurther(s, Move(s, step), step.p)
  {
  }

  lemma WorkerFurther(s: State, step: Step)
    requires Enabled(s, step)
    requires step.Produce? || step.Decrypt? || step.Store? || step.Wake? || step.ReadTail? || step.Decide?
    ensures OneFurther(s, Move(s, step), step.p)
  {
  }

  lemma ThreadNearer(s: State, step: Step)
    requires Enabled(s, step) && GoesOn(step) && !step.PollStep?
    ensures Ranks(Move(s, step).stage) < Ranks(s.stage)
  {
    if step.Produce? || step.Decrypt? || step.Store? || step.Wake? || step.ReadTail? || step.Decide? {
      WorkerFurther(s, step);
    } else {
      EntryFurther(s, step);
    }
    RanksLess(s.stage, step.p, Move(s, step).stage[step.p]);
  }

  lemma GapAside(t: State, s: State, gap: bool)
    requires Nearer(t, s)
    ensures Nearer(t.(h := t.h.(gap := gap)), s)
  {
  }

  /** Whatever goes on, in whatever order, brings the receive path nearer to rest. */
  lemma StepNearer(s: State, step: Step)
    requires PollOk(s) && Enabled(s, step) && GoesOn(step)
    ensures Nearer(Apply(s, step), s)
  {
    var t := Move(s, step);
    assert Nearer(t, s) by {
      if step.PollStep? { AdvanceNearer(s, step.more); } else { ThreadNearer(s, step); }
    }
    GapAside(t, s, t.h.gap || NoPackets(t) || MidLink(t));
  }

  /** Short of rest some thread, or the poll, can go on. */
  lemma NotStuck(s: State) returns (step: Step)
    requires PollOk(s) && !AtRest(s)
    ensures Enabled(s, step) && GoesOn(step)
  {
    if p :| p in s.stage && !s.stage[p].Woken? && !s.stage[p].Rejected? {
      match s.stage[p]
      case Entered => step := Reserve(p);
      case Reserved => step := NullNext(p);
      case Nulled => step := Exchange(p);
      case Exchanged(_) => step := Link(p);
      case Linked => step := Produce(p, false);
      case Ringed => step := Decrypt(p, Crypted);
      case Decided(_) => step := Store(p);
      case Stored => step := if s.trigger.Always? then Wake(p) else ReadTail(p);
      case SawTail(tail) => step := Decide(p, WordOf(s, tail));
      case Refused(_, _) => step := Discard(p);
    } else {
      step := PollStep(true);
    }
  }

  // ----- every run can be brought to its end -----

  /** The run goes on with the given steps, none of which is the arrival of a packet. */
  predicate Continues(trace: seq<State>, steps: seq<Step>, trace': seq<State>, steps': seq<Step>) {
    && IsRun(trace', steps') && steps <= steps' && trace <= trace'
    && forall i :: |steps| <= i < |steps'| ==> GoesOn(steps'[i])
  }

  lemma OneMore(trace: seq<State>, steps: seq<Step>, step: Step)
    requires IsRun(trace, steps) && Enabled(trace[|steps|], step) && GoesOn(step)
    ensures IsRun(trace + [Apply(trace[|steps|], step)], steps + [step])
  {
    var trace', steps' := trace + [Apply(trace[|steps|], step)], steps + [step];
    forall i | 0 <= i < |steps'|
      ensures IsStep(trace', steps', i)
    {
      if i < |steps| {
        assert IsStep(trace, steps, i);
        assert trace'[i] == trace[i] && trace'[i + 1] == trace[i + 1] && steps'[i] == steps[i];
      }
    }
  }

  lemma {:induction false} GoesOnToRest(trace: seq<State>, steps: seq<Step>)
    returns (trace': seq<State>, steps': seq<Step>)
    requires IsRun(trace, steps)
    ensures Continues(trace, steps, trace', steps') && AtRest(trace'[|steps'|])
    decreases Ranks(trace[|steps|].stage), |trace[|steps|].h.order| - |trace[|steps|].h.gone|,
              Bit(trace[|steps|].missed), Bit(trace[|steps|].sched), PollRank(trace[|steps|].poll)
  {
    var s := trace[|steps|];
    RunInv(trace, steps, |steps|);
    if AtRest(s) {
      trace', steps' := trace, steps;
    } else {
      var step := NotStuck(s);
      StepNearer(s, step);
      OneMore(trace, steps, step);
      trace', steps' := GoesOnToRest(trace + [Apply(s, step)], steps + [step]);
    }
  }

  /** Every run can go on until all that got into the queue has been disposed of, in order. */
  lemma EverythingIsDisposed(trace: seq<State>, steps: seq<Step>) returns (trace': seq<State>, steps': seq<Step>)
    requires IsRun(trace, steps)
    ensures Continues(trace, steps, trace', steps') && AtRest(trace'[|steps'|])
    ensures trace'[|steps'|].h.gone == ExchangeOrder(steps')
  {
    trace', steps' := GoesOnToRest(trace, steps);
    QuiescentMeansDone(trace', steps', |steps'|);
    assert steps'[..|steps'|] == steps';
  }
}
