/**
 The flush-colour protocol of kernel/workqueue.c.

 The machine below holds the fields the kernel holds (colours taken modulo the
 number of colours, per-pwq in-flight counters, the flusher lists) and moves in
 the steps the locks allow: everything on the workqueue itself happens under
 wq->mutex, but preparing the pwqs takes one pool lock at a time, so work is
 queued, finished and barriered between any two of those steps.

 `History` is written by the steps and never read by them: no guard and no
 kernel field depends on it.  It numbers the colours without wrapping
 ("epochs"), and remembers which work items were queued before which flush.
 */
module FlushProtocol {
  import opened Maybe

  type Flusher = nat
  type WorkId = nat

  /** struct pool_workqueue; flushColor is -1 while the pwq is not armed. */
  datatype Pwq = Pwq(workColor: nat, flushColor: int, inFlight: seq<int>)

  /** struct wq_flusher while it is on wq->flusher_queue. */
  datatype Waiting = Waiting(f: Flusher, color: nat)

  /** What the thread holding wq->mutex does next. */
  datatype Holder =
    | Unlocked
    | Prep(cursor: nat, arm: bool, advance: bool, wait: bool, after: After)
    | CascadeTop
    | CascadeNext(next: Option<Flusher>)

  /** Where flush_workqueue_prep_pwqs() returns to.  `next` is the list cursor
      that the completion loop left behind: None when it ran off the list. */
  datatype After = StartedFirst | StartedQueued | Spliced(next: Option<Flusher>) | ArmedNext

  datatype Item = Item(pwq: nat, color: nat, epoch: nat)

  datatype History = History(
    live: map<WorkId, Item>,
    retired: set<WorkId>,
    before: map<Flusher, set<WorkId>>,
    epochOf: map<Flusher, nat>,
    flushEpoch: nat,
    workEpoch: nat,
    pwqEpoch: seq<nat>)

  datatype State = State(
    colors: nat,
    pwqs: seq<Pwq>,
    workColor: nat,
    flushColor: nat,
    toFlush: int,
    first: Option<Flusher>,
    queue: seq<Waiting>,
    overflow: seq<Flusher>,
    colorOf: map<Flusher, nat>,
    holder: Holder,
    wake: bool,
    done: set<Flusher>,
    warned: bool,
    strayed: bool,
    h: History)

  datatype Step =
    | QueueWork(id: WorkId, p: nat)
    | InsertBarrier(id: WorkId, target: WorkId)
    | Retire(id: WorkId)
    | CompleteFirst
    | CallFlush(f: Flusher)
    | StartFlush(f: Flusher)
    | PrepPwq
    | EndPrep
    | WakeFlusher(f: Flusher)
    | CascadeComplete
    | CascadeAdvance

  /** work_next_color(): (color + 1) modulo the number of colours, see FlushSafety.NextColorIsModular. */
  function NextColor(s: State, c: nat): nat {
    if c + 1 == s.colors then 0 else c + 1
  }

  /** How many flushers at the front of the list share `color`. */
  function LeadLength(queue: seq<Waiting>, color: nat): (k: nat)
    ensures k <= |queue|
  {
    if queue == [] || queue[0].color != color then 0 else 1 + LeadLength(queue[1..], color)
  }

  function Flushers(queue: seq<Waiting>): set<Flusher> {
    set i | 0 <= i < |queue| :: queue[i].f
  }

  predicate Started(s: State, f: Flusher) {
    f in s.colorOf || f in s.overflow
  }

  /** Array bounds of the kernel's structures; every step keeps them. */
  predicate WellSized(s: State) {
    && s.colors >= 2
    && s.workColor < s.colors && s.flushColor < s.colors
    && |s.h.pwqEpoch| == |s.pwqs|
    && (forall p :: 0 <= p < |s.pwqs| ==> |s.pwqs[p].inFlight| == s.colors && s.pwqs[p].workColor < s.colors)
    && (forall id :: id in s.h.live ==> s.h.live[id].pwq < |s.pwqs| && s.h.live[id].color < s.colors)
  }

  predicate Enabled(s: State, step: Step) {
    && WellSized(s)
    && !s.strayed
    && match step
       case QueueWork(id, p) => p < |s.pwqs| && id !in s.h.live && id !in s.h.retired
       case InsertBarrier(id, target) => target in s.h.live && id !in s.h.live && id !in s.h.retired
       case Retire(id) => id in s.h.live
       case CompleteFirst => s.wake
       case CallFlush(f) => f !in s.h.before
       case StartFlush(f) => f in s.h.before && !Started(s, f) && s.holder.Unlocked?
       case PrepPwq => s.holder.Prep? && s.holder.cursor < |s.pwqs|
       case EndPrep => s.holder.Prep? && s.holder.cursor == |s.pwqs|
       case WakeFlusher(f) => f in s.done && s.holder.Unlocked? && s.first == Some(f)
       case CascadeComplete => s.holder.CascadeTop?
       case CascadeAdvance => s.holder.CascadeNext?
  }

  function Bump(s: State, id: WorkId, it: Item): State
    requires WellSized(s) && it.pwq < |s.pwqs| && it.color < s.colors
  {
    var q := s.pwqs[it.pwq];
    s.(pwqs := s.pwqs[it.pwq := q.(inFlight := q.inFlight[it.color := q.inFlight[it.color] + 1])],
       h := s.h.(live := s.h.live[id := it]))
  }

  /** pwq_dec_nr_in_flight(): the item ran, or was cancelled while queued. */
  function Drop(s: State, id: WorkId): State
    requires Enabled(s, Retire(id))
  {
    var it := s.h.live[id];
    var q := s.pwqs[it.pwq];
    var left := q.inFlight[it.color] - 1;
    var q1 := q.(inFlight := q.inFlight[it.color := left]);
    var gone := s.h.(live := s.h.live - {id}, retired := s.h.retired + {id});
    if q.flushColor == it.color && left == 0 then
      s.(pwqs := s.pwqs[it.pwq := q1.(flushColor := -1)], toFlush := s.toFlush - 1,
         wake := s.wake || s.toFlush - 1 == 0, h := gone)
    else
      s.(pwqs := s.pwqs[it.pwq := q1], h := gone)
  }

  /** The start-to-wait phase of __flush_workqueue(). */
  function Start(s: State, f: Flusher): State
    requires s.colors > 0
  {
    var next := NextColor(s, s.workColor);
    if next == s.flushColor then
      s.(overflow := s.overflow + [f])
    else
      var t := s.(colorOf := s.colorOf[f := s.workColor], workColor := next,
                  h := s.h.(epochOf := s.h.epochOf[f := s.h.workEpoch], workEpoch := s.h.workEpoch + 1));
      if s.first.None? then
        t.(first := Some(f), toFlush := 1, holder := Prep(0, true, true, false, StartedFirst),
           warned := s.warned || s.overflow != [] || s.flushColor != s.workColor || s.toFlush != 0)
      else
        t.(queue := s.queue + [Waiting(f, s.workColor)], holder := Prep(0, false, true, false, StartedQueued),
           warned := s.warned || s.overflow != [] || s.flushColor == s.workColor)
  }

  /** One iteration of the loop in flush_workqueue_prep_pwqs(). */
  function PrepareOne(s: State): State
    requires s.holder.Prep? && s.holder.cursor < |s.pwqs| == |s.h.pwqEpoch| && s.colors > 0
    requires s.flushColor < |s.pwqs[s.holder.cursor].inFlight|
  {
    var c := s.holder.cursor;
    var q := s.pwqs[c];
    var armed := s.holder.arm && q.inFlight[s.flushColor] > 0;
    var q1 := if armed then q.(flushColor := s.flushColor) else q;
    var q2 := if s.holder.advance then q1.(workColor := s.workColor) else q1;
    s.(pwqs := s.pwqs[c := q2],
       toFlush := if armed then s.toFlush + 1 else s.toFlush,
       holder := s.holder.(cursor := c + 1, wait := s.holder.wait || armed),
       warned := s.warned || (s.holder.arm && q.flushColor != -1)
                 || (s.holder.advance && s.workColor != NextColor(s, q.workColor)),
       h := if s.holder.advance then s.h.(pwqEpoch := s.h.pwqEpoch[c := s.h.workEpoch]) else s.h)
  }

  /** The end of flush_workqueue_prep_pwqs() and what its caller does with the result. */
  function FinishPrep(s: State): State
    requires s.holder.Prep?
  {
    var hd := s.holder;
    var last := hd.arm && s.toFlush - 1 == 0;
    var t := s.(toFlush := if hd.arm then s.toFlush - 1 else s.toFlush,
                done := if last && s.first.Some? then s.done + {s.first.value} else s.done,
                strayed := s.strayed || (last && s.first.None?));
    match hd.after
    case StartedFirst =>
      if hd.wait then t.(holder := Unlocked)
      else t.(holder := Unlocked, flushColor := s.workColor, first := None,
              h := s.h.(flushEpoch := s.h.workEpoch))
    case StartedQueued => t.(holder := Unlocked)
    case Spliced(next) => t.(holder := CascadeNext(next))
    case ArmedNext =>
      if hd.wait then t.(holder := Unlocked) else t.(holder := CascadeTop, first := None)
  }

  /** The top of the cascade loop: complete the finished colour, advance, admit the overflow. */
  function CompleteColor(s: State): State
    requires s.colors > 0
  {
    var k := LeadLength(s.queue, s.flushColor);
    var rest := s.queue[k..];
    var next := if rest == [] then None else Some(rest[0].f);
    var t := s.(done := s.done + Flushers(s.queue[..k]),
                flushColor := NextColor(s, s.flushColor),
                warned := s.warned || (s.overflow != [] && s.flushColor != NextColor(s, s.workColor)));
    if s.overflow == [] then
      t.(queue := rest, holder := CascadeNext(next), h := s.h.(flushEpoch := s.h.flushEpoch + 1))
    else
      t.(queue := rest + Recolor(s.overflow, s.workColor), overflow := [],
         colorOf := AssignAll(s.colorOf, s.overflow, s.workColor),
         workColor := NextColor(s, s.workColor),
         holder := Prep(0, false, true, false, Spliced(next)),
         h := s.h.(flushEpoch := s.h.flushEpoch + 1, workEpoch := s.h.workEpoch + 1,
                   epochOf := AssignAll(s.h.epochOf, s.overflow, s.h.workEpoch)))
  }

  function Recolor(fs: seq<Flusher>, color: nat): (r: seq<Waiting>)
    ensures |r| == |fs|
    ensures forall i :: 0 <= i < |fs| ==> r[i] == Waiting(fs[i], color)
  {
    seq(|fs|, i requires 0 <= i < |fs| => Waiting(fs[i], color))
  }

  function AssignAll(m: map<Flusher, nat>, fs: seq<Flusher>, v: nat): (r: map<Flusher, nat>)
    ensures forall f :: f in r <==> f in m || f in fs
    ensures forall f :: f in r ==> r[f] == if f in fs then v else m[f]
  {
    map f | f in m.Keys + (set x | x in fs) :: if f in fs then v else m[f]
  }

  /** The bottom of the cascade loop: stop, or make the next flusher the first one and arm. */
  function ArmNext(s: State): State
    requires s.holder.CascadeNext?
  {
    if s.queue == [] then
      s.(holder := Unlocked, warned := s.warned || s.flushColor != s.workColor)
    else if s.holder.next.None? then
      s.(strayed := true)
    else
      var f := s.holder.next.value;
      s.(queue := Without(s.queue, f), first := Some(f), toFlush := 1,
         holder := Prep(0, true, false, false, ArmedNext),
         warned := s.warned || s.flushColor == s.workColor || f !in s.colorOf
                   || s.colorOf[f] != s.flushColor || s.toFlush != 0)
  }

  /** list_del_init() */
  function Without(queue: seq<Waiting>, f: Flusher): seq<Waiting> {
    if queue == [] then []
    else if queue[0].f == f then queue[1..]
    else [queue[0]] + Without(queue[1..], f)
  }

  function Apply(s: State, step: Step): State
    requires Enabled(s, step)
  {
    match step
    case QueueWork(id, p) => Bump(s, id, Item(p, s.pwqs[p].workColor, s.h.pwqEpoch[p]))
    case InsertBarrier(id, target) => Bump(s, id, s.h.live[target])
    case Retire(id) => Drop(s, id)
    case CompleteFirst =>
      if s.first.Some? then s.(wake := false, done := s.done + {s.first.value}) else s.(strayed := true)
    case CallFlush(f) => s.(h := s.h.(before := s.h.before[f := s.h.live.Keys]))
    case StartFlush(f) => Start(s, f)
    case PrepPwq => PrepareOne(s)
    case EndPrep => FinishPrep(s)
    case WakeFlusher(f) =>
      s.(first := None, holder := CascadeTop,
         warned := s.warned || f in Flushers(s.queue) || f in s.overflow
                   || f !in s.colorOf || s.colorOf[f] != s.flushColor)
    case CascadeComplete => CompleteColor(s)
    case CascadeAdvance => ArmNext(s)
  }

  predicate Init(s: State) {
    && s.colors >= 2
    && s.workColor == s.flushColor == s.toFlush == 0
    && s.first == None && s.queue == [] && s.overflow == [] && s.colorOf == map[]
    && s.holder == Unlocked && !s.wake && s.done == {} && !s.warned && !s.strayed
    && (forall p :: 0 <= p < |s.pwqs| ==>
          s.pwqs[p].workColor == 0 && s.pwqs[p].flushColor == -1 && s.pwqs[p].inFlight == seq(s.colors, _ => 0))
    && s.h == History(map[], {}, map[], map[], 0, 0, seq(|s.pwqs|, _ => 0))
  }

  /** Position i of the trace moves by step i. */
  predicate IsStep(trace: seq<State>, steps: seq<Step>, i: nat)
    requires i < |steps| && |trace| == |steps| + 1
  {
    Enabled(trace[i], steps[i]) && trace[i + 1] == Apply(trace[i], steps[i])
  }

  /** `trace` is a run of the machine under the interleaving `steps`. */
  predicate IsRun(trace: seq<State>, steps: seq<Step>) {
    && |trace| == |steps| + 1
    && Init(trace[0])
    && forall i :: 0 <= i < |steps| ==> IsStep(trace, steps, i)
  }
}
