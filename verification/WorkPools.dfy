/**
 The same travels of work items with the lists, data words and workers updated in place, one
 holder of a lock at a time: every method takes exactly the step of WorkExecution it models and
 keeps the invariant of WorkReentrancy.
 */
module WorkPools {
  import opened Maybe
  import opened WorkExecution
  import opened WorkReentrancy

  class Pools {
    const barriers: set<nat>
    const pools: seq<nat>
    var works: seq<Work>
    var linked: set<nat>
    var lists: map<Place, seq<nat>>
    var current: seq<Option<nat>>

    ghost function View(): State
      reads this
    {
      State(works, barriers, linked, lists, pools, current)
    }

    /** find_worker_executing_work() */
    method FindWorkerExecutingWork(pool: nat, w: nat) returns (r: Option<nat>)
      requires |pools| == |current|
      ensures r == Executor(pools, current, pool, w, 0)
    {
      var v := 0;
      while v < |pools|
        invariant 0 <= v <= |pools|
        invariant Executor(pools, current, pool, w, 0) == Executor(pools, current, pool, w, v)
      {
        if pools[v] == pool && current[v] == Some(w) { return Some(v); }
        v := v + 1;
      }
      return None;
    }

    /** One list_move_tail(): the item at index i of one list goes to the end of another. */
    method MoveTail(from: Place, i: nat, to: Place)
      requires i < |At(lists, from)| && from != to && At(lists, from)[i] < |works|
      modifies this`lists, this`works
      ensures View() == TailMoved(old(View()), from, i, to)
    {
      var list := At(lists, from);
      var w := list[i];
      lists := lists[from := list[..i] + list[i + 1..]][to := At(lists, to) + [w]];
      works := works[w := works[w].(place := to)];
    }

    /** One round of move_linked_works(), when the items from i to k have been moved: is there more to move? */
    method MoveNext(from: Place, i: nat, to: Place, ghost s0: State, ghost k: nat) returns (more: bool)
      requires i <= k < |At(s0.lists, from)| && from != to && At(s0.lists, from)[k] < |s0.works|
      requires View() == if k == i then s0 else Moved(s0, from, i, k, to)
      modifies this`lists, this`works
      ensures View() == Moved(s0, from, i, k + 1, to)
      ensures more <==> At(s0.lists, from)[k] in s0.linked && k + 1 < |At(s0.lists, from)|
    {
      if k == i { FirstMoved(s0, from, i, to); } else { NextMoved(s0, from, i, k, to); }
      var w := At(lists, from)[i];
      MoveTail(from, i, to);
      more := w in linked && i < |At(lists, from)|;
    }

    /** move_linked_works(): the item at index i and the barriers linked behind it, one after the other. */
    method MoveLinkedWorks(from: Place, i: nat, to: Place)
      requires i < |At(lists, from)| && from != to && InPlace(works, At(lists, from), from)
      modifies this`lists, this`works
      ensures View() == MoveSeries(old(View()), from, i, to)
    {
      ghost var s0, k := View(), i;
      ghost var list := At(s0.lists, from);
      var more := true;
      while more
        invariant i <= k <= |list| && (more ==> k < |list|) && (k == i ==> more)
        invariant View() == if k == i then s0 else Moved(s0, from, i, k, to)
        invariant SeriesEnd(list, i, s0.linked) == if more then SeriesEnd(list, k, s0.linked) else k
        decreases |list| - k, more
      {
        more := MoveNext(from, i, to, s0, k);
        k := k + 1;
      }
    }

    /** assign_work(): false when the item was handed to the worker that is running it. */
    method AssignWork(v: nat, i: nat) returns (mine: bool)
      requires Inv(View()) && Enabled(View(), Assign(v, i))
      modifies this`lists, this`works
      ensures View() == Apply(old(View()), Assign(v, i)) && Inv(View())
      ensures !mine ==>
                exists u :: 0 <= u < |pools| && pools[u] == pools[v]
                            && current[u] == Some(old(At(lists, Worklist(pools[v])))[i])
    {
      StepOk(View(), Assign(v, i));
      var pool := pools[v];
      var w := At(lists, Worklist(pool))[i];
      assert ListOk(works, At(lists, Worklist(pool)), Worklist(pool), linked, barriers);
      var collision := FindWorkerExecutingWork(pool, w);
      if collision.Some? {
        MoveLinkedWorks(Worklist(pool), i, Scheduled(collision.value));
        return false;
      }
      MoveLinkedWorks(Worklist(pool), i, Scheduled(v));
      return true;
    }

    /** insert_work() at the tail */
    method InsertWork(w: nat, pool: nat, wait: bool)
      requires w < |works|
      modifies this`lists, this`works
      ensures View() == Insert(old(View()), w, pool, wait)
    {
      var place := if wait then Inactive(pool) else Worklist(pool);
      works := works[w := Work(On(pool), true, Free, place)];
      lists := lists[place := At(lists, place) + [w]];
    }

    /** __queue_work() of a claimed item: onto the pool it runs on, or once it is known not to run, onto this one. */
    method QueueWork(w: nat, pool: nat, wait: bool)
      requires Inv(View()) && Enabled(View(), Queue(w, pool, wait))
      modifies this`lists, this`works
      ensures var s := Apply(old(View()), Queue(w, pool, wait));
              View() == if Enabled(s, QueueOn(w, wait)) then Apply(s, QueueOn(w, wait)) else s
      ensures Inv(View()) && w < |works| && works[w].data.On?
      ensures works[w].data.pool != pool ==>
                exists v :: 0 <= v < |pools| && pools[v] == works[w].data.pool && current[v] == Some(w)
    {
      StepOk(View(), Queue(w, pool, wait));
      var last := LastPool(works[w].data);
      if last.Some? && last.value != pool {
        var worker := FindWorkerExecutingWork(last.value, w);
        if worker.Some? {
          InsertWork(w, last.value, wait);
          return;
        }
        // the locks change hands here; the owner of PENDING is the only one to move the item
        works := works[w := works[w].(stage := Aimed(pool))];
        StepOk(View(), QueueOn(w, wait));
      }
      InsertWork(w, pool, wait);
    }

    /** process_one_work() up to the call: the item leaves the list, loses PENDING and names its pool. */
    method ClaimAndDequeue(v: nat) returns (w: nat)
      requires Inv(View()) && Enabled(View(), Start(v))
      modifies this
      ensures View() == Apply(old(View()), Start(v)) && Inv(View())
      ensures forall u :: 0 <= u < |current| && u != v ==> current[u] != Some(w)
    {
      StepOk(View(), Start(v));
      var list := At(lists, Scheduled(v));
      w := list[0];
      current := current[v := Some(w)];
      lists := lists[Scheduled(v) := list[1..]];
      linked := linked - {w};
      works := works[w := Work(Off(Some(pools[v])), false, Free, Nowhere)];
      assert Alone(current) && current[v] == Some(w);
    }
  }

  function TailMoved(s: State, from: Place, i: nat, to: Place): State
    requires i < |At(s.lists, from)| && At(s.lists, from)[i] < |s.works|
  {
    var list := At(s.lists, from);
    var w := list[i];
    s.(lists := s.lists[from := list[..i] + list[i + 1..]][to := At(s.lists, to) + [w]],
       works := s.works[w := s.works[w].(place := to)])
  }

  /** The items from i to k have been moved so far. */
  ghost function Moved(s: State, from: Place, i: nat, k: nat, to: Place): State
    requires i <= k <= |At(s.lists, from)|
  {
    var list := At(s.lists, from);
    s.(lists := s.lists[from := list[..i] + list[k..]][to := At(s.lists, to) + list[i..k]],
       works := Placed(s.works, list[i..k], to))
  }

  lemma FirstMoved(s: State, from: Place, i: nat, to: Place)
    requires i < |At(s.lists, from)| && from != to && At(s.lists, from)[i] < |s.works|
    ensures TailMoved(s, from, i, to) == Moved(s, from, i, i + 1, to)
  {
    var list := At(s.lists, from);
    assert list[i..i + 1] == [list[i]];
    assert TailMoved(s, from, i, to).works == Moved(s, from, i, i + 1, to).works;
  }

  /** Taking the item at i out of what is left, and putting it behind what was moved. */
  lemma NextSlices(list: seq<nat>, tail: seq<nat>, i: nat, k: nat)
    requires i <= k < |list|
    ensures var left := list[..i] + list[k..];
            left[i] == list[k] && left[..i] + left[i + 1..] == list[..i] + list[k + 1..]
    ensures list[i..k] + [list[k]] == list[i..k + 1] && tail + list[i..k] + [list[k]] == tail + list[i..k + 1]
  {
  }

  lemma PlacedNext(works: seq<Work>, moved: seq<nat>, w: nat, to: Place)
    requires w < |works|
    ensures var was := Placed(works, moved, to);
            was[w := was[w].(place := to)] == Placed(works, moved + [w], to)
  {
  }

  lemma NextMoved(s: State, from: Place, i: nat, k: nat, to: Place)
    requires i <= k < |At(s.lists, from)| && from != to && At(s.lists, from)[k] < |s.works|
    ensures var m := Moved(s, from, i, k, to);
            && i < |At(m.lists, from)| && At(m.lists, from)[i] == At(s.lists, from)[k]
            && TailMoved(m, from, i, to) == Moved(s, from, i, k + 1, to)
  {
    var list, m := At(s.lists, from), Moved(s, from, i, k, to);
    NextSlices(list, At(s.lists, to), i, k);
    PlacedNext(s.works, list[i..k], list[k], to);
    assert At(m.lists, from) == list[..i] + list[k..] && At(m.lists, to) == At(s.lists, to) + list[i..k];
    assert TailMoved(m, from, i, to).lists == Moved(s, from, i, k + 1, to).lists;
  }
}
