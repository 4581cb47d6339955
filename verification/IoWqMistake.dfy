/**
 What follows a mistaken cancel: the list as the source keeps it, with next pointers, and a worker
 that reads the pointer behind its item when it begins the item.  Two runs show that after a cancel
 that leaves an item without a hash as the tail of hash 0, an item of that hash runs without its bit,
 beside another item of the hash, and clears the other's bit; or is never run at all.  The list
 primitives come from a header that is not part of this model and are taken at their names.
 */
module IoWqMistake {
  import opened Maybe
  import opened IoWqList

  /** struct io_wq_work_list and hash_tail */
  datatype Wq = Wq(first: Option<Item>, last: Option<Item>, tail: map<nat, Item>)

  /** A worker has its item, and then has read what is linked behind it and runs it. */
  datatype Worker = Free | Assigned(cur: Item) | Running(cur: Item, next: Option<Item>)

  datatype State = State(wqs: seq<Wq>, next: map<Item, Option<Item>>, busy: set<nat>, owner: seq<nat>,
    workers: seq<Worker>)

  datatype Step =
    | Enqueue(q: nat, x: Item)
    | Cancel(q: nat, path: seq<Item>)
    | Take(v: nat, path: seq<Item>)
    | Begin(v: nat)
    | Finish(v: nat)

  function NextOf(next: map<Item, Option<Item>>, x: Item): Option<Item> { if x in next then next[x] else None }

  /** The path leads from the head of the list to an item on it. */
  predicate OnPath(w: Wq, next: map<Item, Option<Item>>, path: seq<Item>) {
    && path != [] && w.first == Some(path[0])
    && forall i :: 0 <= i < |path| - 1 ==> LinkedTo(next, path, i)
  }

  predicate LinkedTo(next: map<Item, Option<Item>>, path: seq<Item>, i: nat)
    requires i + 1 < |path|
  {
    NextOf(next, path[i]) == Some(path[i + 1])
  }

  function Prev(path: seq<Item>): Option<Item> { if |path| < 2 then None else Some(path[|path| - 2]) }

  predicate Enabled(s: State, step: Step) {
    && |s.owner| == |s.workers| && (forall v :: 0 <= v < |s.owner| ==> s.owner[v] < |s.wqs|)
    && match step
       case Enqueue(q, x) => q < |s.wqs| && x !in s.next
       case Cancel(q, path) => q < |s.wqs| && OnPath(s.wqs[q], s.next, path)
       case Take(v, path) =>
         && v < |s.workers| && s.workers[v].Free? && OnPath(s.wqs[s.owner[v]], s.next, path)
         && (path[|path| - 1].hash.Some? ==>
               path[|path| - 1].hash.value !in s.busy && path[|path| - 1].hash.value in s.wqs[s.owner[v]].tail)
       case Begin(v) => v < |s.workers| && s.workers[v].Assigned?
       case Finish(v) => v < |s.workers| && s.workers[v].Running?
  }

  /** wq_list_add_tail() */
  function AddTail(w: Wq, next: map<Item, Option<Item>>, x: Item): (Wq, map<Item, Option<Item>>) {
    if w.first.None? || w.last.None? then (w.(first := Some(x), last := Some(x)), next[x := None])
    else (w.(last := Some(x)), next[w.last.value := Some(x)][x := None])
  }

  /** wq_list_add_after() */
  function AddAfter(w: Wq, next: map<Item, Option<Item>>, x: Item, pos: Item): (Wq, map<Item, Option<Item>>) {
    (if NextOf(next, pos).None? then w.(last := Some(x)) else w, next[x := NextOf(next, pos)][pos := Some(x)])
  }

  /** wq_list_cut(), and wq_list_del() where the end is the item itself */
  function CutOut(w: Wq, next: map<Item, Option<Item>>, end: Item, prev: Option<Item>): (Wq, map<Item, Option<Item>>) {
    (w.(first := if prev.None? then NextOf(next, end) else w.first,
        last := if w.last == Some(end) then prev else w.last),
     (if prev.None? then next else next[prev.value := NextOf(next, end)])[end := None])
  }

  /** io_wq_insert_work() */
  function Insert(w: Wq, next: map<Item, Option<Item>>, x: Item): (Wq, map<Item, Option<Item>>) {
    if x.hash.None? then AddTail(w, next, x)
    else
      var h := x.hash.value;
      var w1 := w.(tail := w.tail[h := x]);
      if h in w.tail then AddAfter(w1, next, x, w.tail[h]) else AddTail(w1, next, x)
  }

  /** io_wq_remove_pending() */
  function Remove(w: Wq, next: map<Item, Option<Item>>, x: Item, prev: Option<Item>): (Wq, map<Item, Option<Item>>) {
    var isTail := x.hash.Some? && x.hash.value in w.tail && w.tail[x.hash.value] == x;
    var tail :=
      if !isTail then w.tail
      else if prev.Some? && HashValue(prev.value) == x.hash.value then w.tail[x.hash.value := prev.value]
      else w.tail - {x.hash.value};
    CutOut(w.(tail := tail), next, x, prev)
  }

  function Apply(s: State, step: Step): State
    requires Enabled(s, step)
  {
    match step
    case Enqueue(q, x) =>
      var (w, next) := Insert(s.wqs[q], s.next, x);
      s.(wqs := s.wqs[q := w], next := next)
    case Cancel(q, path) =>
      var (w, next) := Remove(s.wqs[q], s.next, path[|path| - 1], Prev(path));
      s.(wqs := s.wqs[q := w], next := next)
    case Take(v, path) => TakeStep(s, v, path)
    case Begin(v) => s.(workers := s.workers[v := Running(s.workers[v].cur, NextOf(s.next, s.workers[v].cur))])
    case Finish(v) => FinishStep(s, v)
  }

  /** io_get_next_work() on the item at the end of the path */
  function TakeStep(s: State, v: nat, path: seq<Item>): State
    requires Enabled(s, Take(v, path))
  {
    var q, x := s.owner[v], path[|path| - 1];
    var w := s.wqs[q];
    if x.hash.None? then
      var (w', next) := CutOut(w, s.next, x, Prev(path));
      s.(wqs := s.wqs[q := w'], next := next, workers := s.workers[v := Assigned(x)])
    else
      var h := x.hash.value;
      var (w', next) := CutOut(w.(tail := w.tail - {h}), s.next, w.tail[h], Prev(path));
      s.(wqs := s.wqs[q := w'], next := next, busy := s.busy + {h}, workers := s.workers[v := Assigned(x)])
  }

  /** The inner loop of io_worker_handle_work() after its item has run: on to what it has read, or clear the bit. */
  function FinishStep(s: State, v: nat): State
    requires Enabled(s, Finish(v))
  {
    var w := s.workers[v];
    if w.next.Some? then s.(workers := s.workers[v := Assigned(w.next.value)])
    else s.(workers := s.workers[v := Free], busy := if w.cur.hash.Some? then s.busy - {w.cur.hash.value} else s.busy)
  }

  predicate IsStep(trace: seq<State>, steps: seq<Step>, i: nat)
    requires i < |steps| && |trace| == |steps| + 1
  {
    Enabled(trace[i], steps[i]) && trace[i + 1] == Apply(trace[i], steps[i])
  }

  predicate IsRun(trace: seq<State>, steps: seq<Step>) {
    && |trace| == |steps| + 1 && trace[0] == Start()
    && (forall i :: 0 <= i < |steps| ==> IsStep(trace, steps, i))
  }

  ghost predicate Reachable(s: State) {
    exists trace: seq<State>, steps: seq<Step> :: IsRun(trace, steps) && trace[|trace| - 1] == s
  }

  /** Two io-wqs that share a hash map, with one worker each */
  function Start(): State { State([Wq(None, None, map[]), Wq(None, None, map[])], map[], {}, [0, 1], [Free, Free]) }

  lemma ReachStart()
    ensures Reachable(Start())
  {
    var trace, steps: seq<Step> := [Start()], [];
    assert IsRun(trace, steps) && trace[|trace| - 1] == Start();
  }

  lemma Reach(s: State, step: Step, t: State)
    requires Reachable(s) && Enabled(s, step) && t == Apply(s, step)
    ensures Reachable(t)
  {
    var trace: seq<State>, steps: seq<Step> :| IsRun(trace, steps) && trace[|trace| - 1] == s;
    var trace', steps' := trace + [t], steps + [step];
    forall i | 0 <= i < |steps'|
      ensures IsStep(trace', steps', i)
    {
      if i < |steps| { assert IsStep(trace, steps, i); }
    }
    assert IsRun(trace', steps') && trace'[|trace'| - 1] == t;
  }

  const U := Item(0, None)
  const A := Item(1, Some(0))
  const B := Item(2, Some(0))
  const D := Item(3, Some(0))

  /** The first item has no hash and is the tail of hash 0 all the same. */
  function Mistaken(): State {
    Start().(wqs := [Wq(Some(U), Some(U), map[0 := U]), Wq(None, None, map[])], next := map[U := None, A := None])
  }

  lemma CancelMistaken()
    ensures Reachable(Mistaken())
  {
    var s1 := Start().(wqs := [Wq(Some(U), Some(U), map[]), Wq(None, None, map[])], next := map[U := None]);
    var s2 := Start().(wqs := [Wq(Some(U), Some(A), map[0 := A]), Wq(None, None, map[])],
                       next := map[U := Some(A), A := None]);
    ReachStart();
    Reach(Start(), Enqueue(0, U), s1);
    Reach(s1, Enqueue(0, A), s2);
    assert LinkedTo(s2.next, [U, A], 0);
    assert MistakenTail([U, A], s2.wqs[0].tail, 1);
    assert map[0 := A][0 := U] == map[0 := U] && s2.next[U := None][A := None] == map[U := None, A := None];
    assert Remove(s2.wqs[0], s2.next, A, Some(U)) == (Wq(Some(U), Some(U), map[0 := U]), map[U := None, A := None]);
    Reach(s2, Cancel(0, [U, A]), Mistaken());
  }

  /** The first item has been taken, and the next item of hash 0 is linked behind it before its worker looks. */
  function Behind(): State {
    State([Wq(None, Some(B), map[0 := B]), Wq(None, None, map[])], map[U := Some(B), A := None, B := None],
          {}, [0, 1], [Assigned(U), Free])
  }

  function Taken(): State {
    State([Wq(None, None, map[0 := U]), Wq(None, None, map[])], map[U := None, A := None],
          {}, [0, 1], [Assigned(U), Free])
  }

  lemma FirstTaken()
    ensures Reachable(Taken())
  {
    CancelMistaken();
    assert Mistaken().next[U := None] == Mistaken().next;
    assert CutOut(Mistaken().wqs[0], Mistaken().next, U, None)
           == (Wq(None, None, map[0 := U]), map[U := None, A := None]);
    Reach(Mistaken(), Take(0, [U]), Taken());
  }

  lemma LinkedBehind()
    ensures Reachable(Behind())
  {
    FirstTaken();
    assert map[0 := U][0 := B] == map[0 := B];
    assert Taken().next[B := None][U := Some(B)] == Behind().next;
    Reach(Taken(), Enqueue(0, B), Behind());
  }

  /** The worker of the first item goes on to the item behind it, whose bit was never set. */
  function RunsBare(): State { Behind().(workers := [Running(B, None), Free]) }

  lemma RunsWithoutBit()
    ensures Reachable(RunsBare()) && B.hash == Some(0) && 0 !in RunsBare().busy
  {
    LinkedBehind();
    var s6 := Behind().(workers := [Running(U, Some(B)), Free]);
    var s7 := Behind().(workers := [Assigned(B), Free]);
    Reach(Behind(), Begin(0), s6);
    Reach(s6, Finish(0), s7);
    Reach(s7, Begin(0), RunsBare());
  }

  function SideBySide(): State {
    State([Wq(None, Some(B), map[0 := B]), Wq(None, None, map[])],
          map[U := Some(B), A := None, B := None, D := None], {0}, [0, 1], [Running(B, None), Running(D, None)])
  }

  /** After the mistaken cancel two workers run items of hash 0 at the same time. */
  lemma TogetherAfterMistake()
    ensures Reachable(SideBySide()) && B.hash == D.hash == Some(0)
    ensures SideBySide().workers[0].cur == B && SideBySide().workers[1].cur == D
  {
    RunsWithoutBit();
    var s0 := RunsBare();
    var s1 := s0.(wqs := [s0.wqs[0], Wq(Some(D), Some(D), map[0 := D])], next := s0.next[D := None]);
    var s2 := SideBySide().(workers := [Running(B, None), Assigned(D)]);
    Reach(s0, Enqueue(1, D), s1);
    assert s1.next[D := None] == s1.next;
    assert CutOut(Wq(Some(D), Some(D), map[]), s1.next, D, None) == (Wq(None, None, map[]), s1.next);
    assert map[0 := D] - {0} == map[];
    Reach(s1, Take(1, [D]), s2);
    Reach(s2, Begin(1), SideBySide());
  }

  /** And when the one without the bit ends, it clears the bit of the other, which still runs. */
  lemma BitLostAfterMistake() returns (s: State)
    ensures Reachable(s) && |s.workers| == 2 && s.workers[1] == Running(D, None) && D.hash == Some(0) && 0 !in s.busy
  {
    TogetherAfterMistake();
    s := Apply(SideBySide(), Finish(0));
    Reach(SideBySide(), Finish(0), s);
  }

  /** The item is linked behind the departed item after its worker has looked: it is on no list and with no worker. */
  lemma LostAfterMistake() returns (s: State)
    ensures Reachable(s) && |s.wqs| == 2 && s.wqs[0].first.None? && s.wqs[0].tail == map[0 := B] && B in s.next
    ensures s.workers == [Running(U, None), Free]
    ensures forall path :: OnPath(s.wqs[0], s.next, path) ==> B !in path
  {
    FirstTaken();
    var t := Taken().(workers := [Running(U, None), Free]);
    Reach(Taken(), Begin(0), t);
    s := Behind().(workers := t.workers);
    assert map[0 := U][0 := B] == map[0 := B];
    assert t.next[B := None][U := Some(B)] == Behind().next;
    Reach(t, Enqueue(0, B), s);
  }
}
