/**
 Per-node concurrency accounting of an unbound workqueue: every pool_workqueue (pwq) of a node
 draws on one shared count nr, limited by max, and a pwq that finds the count exhausted waits on
 the node's pending list.  The pwqs belong to worker pools with locks of their own, so queueing,
 retiring, cancelling and refilling run side by side.  One step is one atomic access, or one
 stretch under a lock that no other step looks into.
 */
module NodeActive {

  /** Why a count is wanted: to queue a new item, or to wake a waiting one (fill). */
  datatype Why = Queue(work: nat) | Fill

  /** Where a thread is.  v is what atomic_dec_return() gave, m what was read from max. */
  datatype Op =
    | Idle
    | Try1(p: nat, why: Why)                                // about to read max
    | Try1Max(p: nat, why: Why, m: int)                     // about to compare and exchange
    | WantNna(p: nat, why: Why)                             // failed, about to lock the node
    | Try2(p: nat, why: Why, added: bool)                   // on the list, under the node's lock
    | Try2Max(p: nat, why: Why, added: bool, m: int)
    | Got(p: nat, why: Why)
    | Lost(p: nat, why: Why)
    | Dec1(p: nat)                                          // pwq->nr_active is down, nr is not
    | Dec2(p: nat, v: int)                                  // nr is down, about to read max
    | Dec3(p: nat, v: int)                                  // about to look at the pending list
    | Act(pool: nat, v: int)                                // node_activate_pending_pwq(), to lock the node
    | ActIn(pool: nat, v: int)                              // at retry:, node and pool locked
    | ActWait(pool: nat, v: int)                            // the unlock/lock dance
    | ActTry(pool: nat, v: int)                             // found a waiting item
    | ActMax(pool: nat, v: int, m: int)

  datatype State = State(poolOf: seq<nat>, nr: int, max: int, pending: seq<nat>,
                         active: seq<nat>, inactive: seq<seq<nat>>, ops: seq<Op>)

  datatype Step =
    | QueueStart(t: nat, p: nat, work: nat)
    | FillStart(t: nat, p: nat)
    | RetireStart(t: nat, p: nat)
    | Cancel(p: nat, i: nat)
    | SetMax(max: int)
    | Go(t: nat)

  // ---------------------------------------------------------------- locks

  function PoolHeld(poolOf: seq<nat>, op: Op): int {
    match op
    case Idle | ActWait(_, _) => -1
    case Act(l, _) => l
    case ActIn(l, _) => l
    case ActTry(l, _) => l
    case ActMax(l, _, _) => l
    case _ => if op.p < |poolOf| then poolOf[op.p] else -1
  }

  predicate NnaHeld(op: Op) { op.Try2? || op.Try2Max? || op.ActIn? || op.ActTry? || op.ActMax? }

  predicate PoolFree(poolOf: seq<nat>, ops: seq<Op>, pool: nat) {
    forall u :: 0 <= u < |ops| ==> PoolHeld(poolOf, ops[u]) != pool
  }

  predicate NnaFree(ops: seq<Op>) { forall u :: 0 <= u < |ops| ==> !NnaHeld(ops[u]) }

  // ---------------------------------------------------------------- steps

  predicate HasPwq(op: Op) { !(op.Idle? || op.Act? || op.ActIn? || op.ActWait? || op.ActTry? || op.ActMax?) }

  /** Every pwq named anywhere is one of the node's. */
  predicate Shape(s: State) {
    && |s.inactive| == |s.poolOf| == |s.active|
    && (forall i :: 0 <= i < |s.pending| ==> s.pending[i] < |s.poolOf|)
    && (forall t :: 0 <= t < |s.ops| && HasPwq(s.ops[t]) ==> s.ops[t].p < |s.poolOf|)
  }

  predicate CanStart(s: State, t: nat, p: nat) {
    && Shape(s) && t < |s.ops| && s.ops[t].Idle? && p < |s.poolOf|
    && PoolFree(s.poolOf, s.ops, s.poolOf[p])
  }

  predicate Enabled(s: State, step: Step) {
    match step
    case QueueStart(t, p, _) => CanStart(s, t, p)
    case FillStart(t, p) => CanStart(s, t, p)
    case RetireStart(t, p) => CanStart(s, t, p) && s.active[p] > 0
    case Cancel(p, i) =>
      Shape(s) && p < |s.inactive| && i < |s.inactive[p]| && PoolFree(s.poolOf, s.ops, s.poolOf[p])
    case SetMax(_) => true
    case Go(t) =>
      && Shape(s) && t < |s.ops| && !s.ops[t].Idle?
      && (s.ops[t].WantNna? || s.ops[t].Act? ==> NnaFree(s.ops))
      && (s.ops[t].ActWait? ==> PoolFree(s.poolOf, s.ops, s.ops[t].pool))
  }

  function With(s: State, t: nat, op: Op): State
    requires t < |s.ops|
  {
    s.(ops := s.ops[t := op])
  }

  function Without(pending: seq<nat>, p: nat): (r: seq<nat>)
    ensures forall x :: x in r <==> x in pending && x != p
  {
    if pending == [] then []
    else if pending[0] == p then Without(pending[1..], p)
    else [pending[0]] + Without(pending[1..], p)
  }

  /** __queue_work(): behind waiting items, or when the pwq itself waits, no count is tried for. */
  function StartQueue(s: State, t: nat, p: nat, work: nat): State
    requires CanStart(s, t, p)
  {
    if s.inactive[p] != [] || p in s.pending then s.(inactive := s.inactive[p := s.inactive[p] + [work]])
    else With(s, t, Try1(p, Queue(work)))
  }

  /** tryinc_node_nr_active() outside the node's lock */
  function FirstTry(s: State, t: nat, p: nat, why: Why, m: int): State
    requires t < |s.ops|
  {
    if s.nr < m then With(s, t, Got(p, why)).(nr := s.nr + 1) else With(s, t, WantNna(p, why))
  }

  function AddPending(s: State, t: nat, p: nat, why: Why): State
    requires t < |s.ops|
  {
    if p !in s.pending then With(s, t, Try2(p, why, true)).(pending := s.pending + [p])
    else if why.Fill? then With(s, t, Try2(p, why, false))
    else With(s, t, Lost(p, why))
  }

  /** tryinc_node_nr_active() under the node's lock; a queueing pwq that succeeds leaves the list. */
  function SecondTry(s: State, t: nat, p: nat, why: Why, m: int): State
    requires t < |s.ops|
  {
    if s.nr >= m then With(s, t, Lost(p, why))
    else With(s, t, Got(p, why)).(nr := s.nr + 1,
                                  pending := if why.Fill? then s.pending else Without(s.pending, p))
  }

  /** A list after its first item has been taken. */
  function Rest(list: seq<nat>): seq<nat> { if list == [] then [] else list[1..] }

  /** The end of pwq_tryinc_nr_active() and what its caller does with the answer. */
  function Finish(s: State, t: nat, p: nat, why: Why, got: bool): State
    requires t < |s.ops| && p < |s.active| == |s.inactive|
  {
    var s' := With(s, t, Idle);
    if got then
      s'.(active := s.active[p := s.active[p] + 1],
          inactive := if why.Fill? then s.inactive[p := Rest(s.inactive[p])] else s.inactive)
    else if why.Fill? then s'
    else s'.(inactive := s.inactive[p := s.inactive[p] + [why.work]])
  }

  /** One round of node_activate_pending_pwq() from its retry label. */
  function Search(s: State, t: nat, pool: nat, v: int): State
    requires Shape(s) && t < |s.ops|
  {
    if s.pending == [] then With(s, t, Idle)
    else
      var x := s.pending[0];
      if s.poolOf[x] != pool then
        if PoolFree(s.poolOf, s.ops, s.poolOf[x]) then With(s, t, ActIn(s.poolOf[x], v))
        else With(s, t, ActWait(s.poolOf[x], v))
      else if s.inactive[x] == [] then s.(pending := s.pending[1..])
      else With(s, t, ActTry(pool, v))
  }

  /** The activation, with the round-robin of the list. */
  function Activate(s: State, t: nat, m: int): State
    requires Shape(s) && t < |s.ops|
  {
    if s.nr >= m || s.pending == [] then With(s, t, Idle)
    else
      var x := s.pending[0];
      var left := Rest(s.inactive[x]);
      With(s, t, Idle).(nr := s.nr + 1, active := s.active[x := s.active[x] + 1], inactive := s.inactive[x := left],
                        pending := s.pending[1..] + (if left == [] then [] else [x]))
  }

  predicate InTry(op: Op) {
    op.Try1? || op.Try1Max? || op.WantNna? || op.Try2? || op.Try2Max? || op.Got? || op.Lost?
  }

  /** The next step of pwq_tryinc_nr_active() and its callers. */
  function TryStep(s: State, t: nat): State
    requires Enabled(s, Go(t)) && InTry(s.ops[t])
  {
    match s.ops[t]
    case Try1(p, why) => With(s, t, Try1Max(p, why, s.max))
    case Try1Max(p, why, m) => FirstTry(s, t, p, why, m)
    case WantNna(p, why) => AddPending(s, t, p, why)
    case Try2(p, why, added) => With(s, t, Try2Max(p, why, added, s.max))
    case Try2Max(p, why, _, m) => SecondTry(s, t, p, why, m)
    case Got(p, why) => Finish(s, t, p, why, true)
    case Lost(p, why) => Finish(s, t, p, why, false)
  }

  /** The next step of pwq_dec_nr_active() and node_activate_pending_pwq(). */
  function RetireStep(s: State, t: nat): State
    requires Enabled(s, Go(t)) && !InTry(s.ops[t])
  {
    match s.ops[t]
    case Dec1(p) => With(s, t, Dec2(p, s.nr - 1)).(nr := s.nr - 1)
    case Dec2(p, v) => With(s, t, if v >= s.max then Idle else Dec3(p, v))
    case Dec3(p, v) => With(s, t, if s.pending == [] then Idle else Act(s.poolOf[p], v))
    case Act(pool, v) => With(s, t, ActIn(pool, v))
    case ActIn(pool, v) => Search(s, t, pool, v)
    case ActWait(pool, v) => With(s, t, Act(pool, v))
    case ActTry(pool, v) => With(s, t, ActMax(pool, v, s.max))
    case ActMax(pool, v, m) => Activate(s, t, m)
  }

  function Apply(s: State, step: Step): State
    requires Enabled(s, step)
  {
    match step
    case QueueStart(t, p, work) => StartQueue(s, t, p, work)
    case FillStart(t, p) => if s.inactive[p] == [] then s else With(s, t, Try1(p, Fill))
    case RetireStart(t, p) => With(s, t, Dec1(p)).(active := s.active[p := s.active[p] - 1])
    case Cancel(p, i) => s.(inactive := s.inactive[p := s.inactive[p][..i] + s.inactive[p][i + 1..]])
    case SetMax(max) => s.(max := max)
    case Go(t) => if InTry(s.ops[t]) then TryStep(s, t) else RetireStep(s, t)
  }

  predicate Init(s: State) {
    && s.nr == 0 && s.pending == [] && |s.active| == |s.inactive| == |s.poolOf|
    && (forall p :: 0 <= p < |s.active| ==> s.active[p] == 0)
    && (forall p :: 0 <= p < |s.inactive| ==> s.inactive[p] == [])
    && (forall t :: 0 <= t < |s.ops| ==> s.ops[t].Idle?)
  }

  predicate IsStep(trace: seq<State>, steps: seq<Step>, i: nat)
    requires i < |steps| && |trace| == |steps| + 1
  {
    Enabled(trace[i], steps[i]) && trace[i + 1] == Apply(trace[i], steps[i])
  }

  /** A run from a node with nothing queued. */
  predicate IsRun(trace: seq<State>, steps: seq<Step>) {
    && |trace| == |steps| + 1 && Init(trace[0])
    && (forall i :: 0 <= i < |steps| ==> IsStep(trace, steps, i))
  }

  /** No thread is inside any of the operations. */
  predicate Quiet(s: State) { forall t :: 0 <= t < |s.ops| ==> s.ops[t].Idle? }
}
