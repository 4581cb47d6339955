/**
 How work items of one non-ordered workqueue travel: claimed through their PENDING bit, put on
 a pool's list, handed with the barriers linked behind them to a worker's scheduled list, run,
 cancelled, and queued again, perhaps towards another pool while they are still running.
 A step is what one holder of a pool's lock does, or one access to a work item's data word.
 The function of a work item is fixed, as a recycled item would be a different one.
 */
module WorkExecution {
  import opened Maybe

  /** The data word: the pool last used, or while queued the pool of the pwq it is queued on. */
  datatype Data = Off(last: Option<nat>) | On(pool: nat)

  /** How far the owner of a PENDING item that is on no list has come. */
  datatype Stage = Free | Claimed | Aimed(pool: nat)

  /** The lists an item can be on: pool->worklist, pwq->inactive_works, worker->scheduled. */
  datatype Place = Nowhere | Worklist(pool: nat) | Inactive(pool: nat) | Scheduled(worker: nat)

  /** place is history: written by every step that moves the item and read by none. */
  datatype Work = Work(data: Data, pending: bool, stage: Stage, place: Place)

  datatype State = State(works: seq<Work>, barriers: set<nat>, linked: set<nat>, lists: map<Place, seq<nat>>,
                         pools: seq<nat>, current: seq<Option<nat>>)

  datatype Step =
    | Claim(w: nat)
    | Release(w: nat)
    | Queue(w: nat, pool: nat, wait: bool)
    | QueueOn(w: nat, wait: bool)
    | Retry(w: nat)
    | Activate(pool: nat, i: nat)
    | Assign(v: nat, i: nat)
    | Start(v: nat)
    | Finish(v: nat)
    | Grab(place: Place, i: nat)
    | Barrier(b: nat, place: Place, i: nat)
    | BarrierRunning(b: nat, v: nat)

  function At(lists: map<Place, seq<nat>>, place: Place): seq<nat> { if place in lists then lists[place] else [] }

  function LastPool(d: Data): Option<nat> { if d.On? then Some(d.pool) else d.last }

  /** find_worker_executing_work(), looking at workers from v on. */
  function Executor(pools: seq<nat>, current: seq<Option<nat>>, pool: nat, w: nat, v: nat): (r: Option<nat>)
    requires |pools| == |current| && v <= |pools|
    ensures r.Some? ==> r.value < |pools| && pools[r.value] == pool && current[r.value] == Some(w)
    ensures r.None? ==> forall u :: v <= u < |pools| && pools[u] == pool ==> current[u] != Some(w)
    decreases |pools| - v
  {
    if v == |pools| then None
    else if pools[v] == pool && current[v] == Some(w) then Some(v)
    else Executor(pools, current, pool, w, v + 1)
  }

  // ---------------------------------------------------------------- lists

  /** move_linked_works(): the series from i on ends with the first item that is not linked. */
  function SeriesEnd(list: seq<nat>, i: nat, linked: set<nat>): (e: nat)
    requires i < |list|
    ensures i < e <= |list|
    ensures forall j :: i <= j < e - 1 ==> list[j] in linked
    ensures e < |list| ==> list[e - 1] !in linked
    decreases |list| - i
  {
    if list[i] in linked && i + 1 < |list| then SeriesEnd(list, i + 1, linked) else i + 1
  }

  function Placed(works: seq<Work>, moved: seq<nat>, to: Place): (r: seq<Work>)
    ensures |r| == |works|
    ensures forall w :: 0 <= w < |works| ==> r[w] == if w in moved then works[w].(place := to) else works[w]
  {
    seq(|works|, w requires 0 <= w < |works| => if w in moved then works[w].(place := to) else works[w])
  }

  /** Moves the series that starts at index i of one list to the tail of another. */
  function MoveSeries(s: State, from: Place, i: nat, to: Place): State
    requires i < |At(s.lists, from)| && from != to
  {
    var list := At(s.lists, from);
    var e := SeriesEnd(list, i, s.linked);
    s.(lists := s.lists[from := list[..i] + list[e..]][to := At(s.lists, to) + list[i..e]],
       works := Placed(s.works, list[i..e], to))
  }

  // ---------------------------------------------------------------- steps

  predicate Shape(s: State) { |s.pools| == |s.current| }

  predicate Enabled(s: State, step: Step) {
    Shape(s) &&
    match step
    case Claim(w) => w < |s.works| && w !in s.barriers && !s.works[w].pending
    case Release(w) => w < |s.works| && s.works[w].stage.Claimed?
    case Queue(w, _, _) => w < |s.works| && s.works[w].stage.Claimed?
    case QueueOn(w, _) => w < |s.works| && s.works[w].stage.Aimed?
    case Retry(w) => w < |s.works| && s.works[w].stage.Aimed?
    case Activate(pool, i) =>
      && i < |At(s.lists, Inactive(pool))| && (i > 0 ==> At(s.lists, Inactive(pool))[i - 1] !in s.linked)
    case Assign(v, i) =>
      && v < |s.pools| && s.current[v].None? && At(s.lists, Scheduled(v)) == []
      && i < |At(s.lists, Worklist(s.pools[v]))|
      && (i > 0 ==> At(s.lists, Worklist(s.pools[v]))[i - 1] !in s.linked)
    case Start(v) =>
      && v < |s.pools| && s.current[v].None? && At(s.lists, Scheduled(v)) != []
      && At(s.lists, Scheduled(v))[0] < |s.works|
    case Finish(v) => v < |s.pools| && s.current[v].Some?
    case Grab(place, i) =>
      && i < |At(s.lists, place)| && At(s.lists, place)[i] < |s.works|
      && At(s.lists, place)[i] !in s.barriers
    case Barrier(b, place, i) =>
      && i < |At(s.lists, place)| && At(s.lists, place)[i] < |s.works|
      && At(s.lists, place)[i] !in s.barriers && Unused(s, b)
    case BarrierRunning(b, v) => v < |s.pools| && s.current[v].Some? && Unused(s, b)
  }

  /** A barrier item that was never queued. */
  predicate Unused(s: State, b: nat) {
    b < |s.works| && b in s.barriers && s.works[b] == Work(Off(None), false, Free, Nowhere)
  }

  /** insert_work() at the tail, active or not. */
  function Insert(s: State, w: nat, pool: nat, wait: bool): State
    requires w < |s.works|
  {
    var place := if wait then Inactive(pool) else Worklist(pool);
    s.(works := s.works[w := Work(On(pool), true, Free, place)],
       lists := s.lists[place := At(s.lists, place) + [w]])
  }

  /** __queue_work() up to the unlock, aimed at the given pool. */
  function QueueStep(s: State, w: nat, pool: nat, wait: bool): State
    requires Shape(s) && w < |s.works|
  {
    var last := LastPool(s.works[w].data);
    if last.None? || last.value == pool then Insert(s, w, pool, wait)
    else if Executor(s.pools, s.current, last.value, w, 0).Some? then Insert(s, w, last.value, wait)
    else s.(works := s.works[w := s.works[w].(stage := Aimed(pool))])
  }

  /** assign_work() */
  function AssignStep(s: State, v: nat, i: nat): State
    requires Shape(s) && v < |s.pools| && i < |At(s.lists, Worklist(s.pools[v]))|
  {
    var pool := s.pools[v];
    var collision := Executor(s.pools, s.current, pool, At(s.lists, Worklist(pool))[i], 0);
    MoveSeries(s, Worklist(pool), i, Scheduled(if collision.Some? then collision.value else v))
  }

  /** process_one_work() up to the call of the function. */
  function StartStep(s: State, v: nat): State
    requires Shape(s) && v < |s.pools| && At(s.lists, Scheduled(v)) != [] && At(s.lists, Scheduled(v))[0] < |s.works|
  {
    var list := At(s.lists, Scheduled(v));
    var w := list[0];
    s.(lists := s.lists[Scheduled(v) := list[1..]], current := s.current[v := Some(w)], linked := s.linked - {w},
       works := s.works[w := Work(Off(Some(s.pools[v])), false, Free, Nowhere)])
  }

  /** list_del_init() of the item at index i, whose data word then names the pool it was on. */
  function Take(s: State, place: Place, i: nat): State
    requires i < |At(s.lists, place)| && At(s.lists, place)[i] < |s.works|
  {
    var list := At(s.lists, place);
    var w := list[i];
    s.(lists := s.lists[place := list[..i] + list[i + 1..]], linked := s.linked - {w},
       works := s.works[w := Work(Off(LastPool(s.works[w].data)), true, Claimed, Nowhere)])
  }

  /** try_to_grab_pending(): the barriers linked behind an inactive item go to the worklist first. */
  function GrabStep(s: State, place: Place, i: nat): State
    requires i < |At(s.lists, place)| && At(s.lists, place)[i] < |s.works|
  {
    if place.Inactive? then
      var k := |At(s.lists, Worklist(place.pool))|;
      Take(MoveSeries(s, place, i, Worklist(place.pool)), Worklist(place.pool), k)
    else Take(s, place, i)
  }

  /** insert_wq_barrier() behind a queued target: the barrier inherits the target's link. */
  function BarrierStep(s: State, b: nat, place: Place, i: nat): State
    requires i < |At(s.lists, place)| && b < |s.works| && At(s.lists, place)[i] < |s.works|
  {
    var list := At(s.lists, place);
    s.(lists := s.lists[place := list[..i + 1] + [b] + list[i + 1..]],
       linked := s.linked + {list[i]} + (if list[i] in s.linked then {b} else {}),
       works := s.works[b := Work(On(PlacePool(s.pools, place)), true, Free, place)])
  }

  /** insert_wq_barrier() behind a running target. */
  function BarrierFront(s: State, b: nat, v: nat): State
    requires Shape(s) && v < |s.pools| && b < |s.works|
  {
    s.(lists := s.lists[Scheduled(v) := [b] + At(s.lists, Scheduled(v))],
       works := s.works[b := Work(On(s.pools[v]), true, Free, Scheduled(v))])
  }

  function PlacePool(pools: seq<nat>, place: Place): nat {
    match place
    case Nowhere => 0
    case Worklist(p) => p
    case Inactive(p) => p
    case Scheduled(v) => if v < |pools| then pools[v] else 0
  }

  function Apply(s: State, step: Step): State
    requires Enabled(s, step)
  {
    match step
    case Claim(w) => s.(works := s.works[w := s.works[w].(pending := true, stage := Claimed)])
    case Release(w) => s.(works := s.works[w := s.works[w].(pending := false, stage := Free)])
    case Queue(w, pool, wait) => QueueStep(s, w, pool, wait)
    case QueueOn(w, wait) => Insert(s, w, s.works[w].stage.pool, wait)
    case Retry(w) => s.(works := s.works[w := s.works[w].(stage := Claimed)])
    case Activate(pool, i) => MoveSeries(s, Inactive(pool), i, Worklist(pool))
    case Assign(v, i) => AssignStep(s, v, i)
    case Start(v) => StartStep(s, v)
    case Finish(v) => s.(current := s.current[v := None])
    case Grab(place, i) => GrabStep(s, place, i)
    case Barrier(b, place, i) => BarrierStep(s, b, place, i)
    case BarrierRunning(b, v) => BarrierFront(s, b, v)
  }

  predicate Init(s: State) {
    && Shape(s) && s.linked == {} && s.lists == map[]
    && (forall w :: 0 <= w < |s.works| ==> s.works[w] == Work(Off(None), false, Free, Nowhere))
    && (forall v :: 0 <= v < |s.current| ==> s.current[v].None?)
  }

  predicate IsStep(trace: seq<State>, steps: seq<Step>, i: nat)
    requires i < |steps| && |trace| == |steps| + 1
  {
    Enabled(trace[i], steps[i]) && trace[i + 1] == Apply(trace[i], steps[i])
  }

  predicate IsRun(trace: seq<State>, steps: seq<Step>) {
    && |trace| == |steps| + 1 && Init(trace[0])
    && (forall i :: 0 <= i < |steps| ==> IsStep(trace, steps, i))
  }
}
