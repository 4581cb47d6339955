/**
 Exactly when a cancel ends the guarantee of IoWqSafety.  From any state of a careful run, some
 continuation without further cancels runs two items of one hash side by side if and only if the
 cancel takes an item without a hash for one of hash 0.  The continuation is found for every such
 state: the workers finish what they have, the mistaken tail is taken, an item joins it, and a
 worker of another io-wq takes the hash.
 */
module IoWqBreak {
  import opened Maybe
  import opened IoWqList
  import opened IoWqHash
  import opened IoWqSafety

  predicate Moves(trace: seq<State>, steps: seq<Step>, i: nat)
    requires i < |steps| && |trace| == |steps| + 1
  {
    Enabled(trace[i], steps[i]) && trace[i + 1] == Apply(trace[i], steps[i]) && !steps[i].Cancel?
  }

  /** A run from any state on, without cancels. */
  predicate IsPath(trace: seq<State>, steps: seq<Step>, r: State, s: State) {
    && |trace| == |steps| + 1 && trace[0] == r && trace[|steps|] == s
    && forall i :: 0 <= i < |steps| ==> Moves(trace, steps, i)
  }

  ghost predicate Later(r: State, s: State) {
    exists trace: seq<State>, steps: seq<Step> :: IsPath(trace, steps, r, s)
  }

  /** Two workers run items of one hash at the same time. */
  predicate SideBySide(s: State, u: nat, v: nat, h: nat) {
    u < |s.workers| && v < |s.workers| && u != v && Runs(s.workers[u], h) && Runs(s.workers[v], h)
  }

  ghost predicate Together(s: State) { exists u: nat, v: nat, h: nat :: SideBySide(s, u, v, h) }

  ghost predicate CanBreak(r: State) { exists s :: Later(r, s) && Together(s) }

  lemma Start(r: State)
    ensures Later(r, r)
  {
    var trace, steps: seq<Step> := [r], [];
    assert IsPath(trace, steps, r, r);
  }

  lemma Go(r: State, s: State, step: Step)
    requires Later(r, s) && Enabled(s, step) && !step.Cancel?
    ensures Later(r, Apply(s, step))
  {
    var trace: seq<State>, steps: seq<Step> :| IsPath(trace, steps, r, s);
    var trace', steps' := trace + [Apply(s, step)], steps + [step];
    forall i | 0 <= i < |steps'|
      ensures Moves(trace', steps', i)
    {
      if i < |steps| { assert Moves(trace, steps, i); }
    }
    assert IsPath(trace', steps', r, Apply(s, step));
  }

  // ---------------------------------------------------------------- without the mistake

  lemma {:induction false} PathInv(trace: seq<State>, steps: seq<Step>, r: State, s: State, i: nat)
    requires IsPath(trace, steps, r, s) && Inv(r) && i < |trace|
    ensures Inv(trace[i])
  {
    if i == 0 {
    } else {
      PathInv(trace, steps, r, s, i - 1);
      assert Moves(trace, steps, i - 1);
      StepOk(trace[i - 1], steps[i - 1]);
    }
  }

  lemma InvHolds(r: State)
    requires Inv(r)
    ensures !CanBreak(r)
  {
    forall s | Later(r, s)
      ensures !Together(s)
    {
      var trace: seq<State>, steps: seq<Step> :| IsPath(trace, steps, r, s);
      PathInv(trace, steps, r, s, |steps|);
      forall u: nat, v: nat, h: nat
        ensures !SideBySide(s, u, v, h)
      {
        assert SideBySide(s, u, v, h) ==> Holds(s.workers[u], h) && Holds(s.workers[v], h);
      }
    }
  }

  // ---------------------------------------------------------------- the workers finish

  /** What is left to do for a worker that is handed nothing more. */
  function Rank(w: Worker): nat {
    match w
    case Free => 0
    case Busy(_, rest) => 2 + |rest|
    case Clearing(_, next) => if next.None? then 1 else 3
  }

  /** The same but for the workers, and for what was begun. */
  predicate SameLists(s: State, t: State) {
    && t.wqs == s.wqs && t.owner == s.owner && t.used == s.used && t.order == s.order
    && |t.begun| == |s.begun|
  }

  ghost predicate Sound(s: State) { Shape(s) && Chains(s.workers) && Locks(s.busy, s.workers) }

  /** Worker v does its next step: done with an item, or with its chain. */
  lemma WorkOn(s: State, v: nat) returns (step: Step)
    requires Sound(s) && v < |s.workers| && !s.workers[v].Free?
    ensures (step == Done(v, None) || step == Clear(v)) && Enabled(s, step)
    ensures var t := Apply(s, step);
            && Sound(t) && SameLists(s, t) && Rank(t.workers[v]) < Rank(s.workers[v])
            && t.workers == s.workers[v := t.workers[v]]
  {
    assert ChainOk(s.workers[v]);
    step := if s.workers[v].Busy? then Done(v, None) else Clear(v);
    var t := Apply(s, step);
    LocksMove(s.busy, s.workers, v, t.workers[v], t.busy);
  }

  lemma FreeUp(r: State, s: State, v: nat) returns (t: State)
    requires Later(r, s) && Sound(s) && v < |s.workers|
    ensures Later(r, t) && Sound(t) && SameLists(s, t) && t.workers == s.workers[v := Free]
    decreases Rank(s.workers[v])
  {
    if s.workers[v].Free? {
      t := s;
    } else {
      var step := WorkOn(s, v);
      Go(r, s, step);
      t := FreeUp(r, Apply(s, step), v);
    }
  }

  predicate FreeFrom(s: State, n: nat) { forall v :: n <= v < |s.workers| ==> s.workers[v].Free? }

  lemma FreeAll(r: State, s: State, n: nat) returns (t: State)
    requires Later(r, s) && Sound(s) && n <= |s.workers| && FreeFrom(s, n)
    ensures Later(r, t) && Sound(t) && SameLists(s, t) && |t.workers| == |s.workers| && FreeFrom(t, 0)
    decreases n
  {
    if n == 0 {
      t := s;
    } else {
      var u := FreeUp(r, s, n - 1);
      t := FreeAll(r, u, n - 1);
    }
  }

  lemma NothingHeld(s: State)
    requires Sound(s) && FreeFrom(s, 0)
    ensures s.busy == {}
  {
    forall h: nat ensures h !in s.busy { assert h in s.busy <==> HeldBySome(s.workers, h); }
  }

  // ---------------------------------------------------------------- the run after a mistake

  lemma {:induction false} IdBound(used: set<Item>) returns (m: nat)
    ensures forall x :: x in used ==> x.id < m
    decreases |used|
  {
    if used == {} {
      m := 0;
    } else {
      var x :| x in used;
      m := IdBound(used - {x});
      if m <= x.id { m := x.id + 1; }
    }
  }

  lemma NewItem(used: set<Item>) returns (x: Item)
    ensures x !in used && x.hash == Some(0)
  {
    var m := IdBound(used);
    x := Item(m, Some(0));
  }

  /** Item k of the list has no hash and is the tail of hash 0 all the same. */
  predicate WrongTail(w: Wq, k: nat) {
    k < |w.list| && Once(w.list) && w.list[k].hash.None? && 0 in w.tail && w.tail[0] == w.list[k]
  }

  lemma MistakeLeaves(w: Wq, i: nat)
    requires Ok(w.list, w.tail) && i < |w.list| && MistakenTail(w.list, w.tail, i)
    ensures WrongTail(Wq(Without(w.list, i, i), RemovedTail(w.list, w.tail, i)), i - 1)
  {
    WithoutOnce(w.list, i, i);
  }

  /** A worker of the io-wq takes the wrong tail, and an item of hash 0 joins it. */
  lemma RunBare(r: State, s: State, q: nat, k: nat, v: nat) returns (t: State)
    requires Later(r, s) && Shape(s) && FreeFrom(s, 0) && v < |s.workers| && s.owner[v] == q && WrongTail(s.wqs[q], k)
    ensures Later(r, t) && Shape(t) && t.owner == s.owner && t.busy == s.busy && |t.workers| == |s.workers|
    ensures Runs(t.workers[v], 0) && forall x :: 0 <= x < |t.workers| && x != v ==> t.workers[x].Free?
    ensures |t.wqs| == |s.wqs| && s.used <= t.used
    ensures forall g :: 0 <= g < |s.wqs| && g != q ==> t.wqs[g] == s.wqs[g]
  {
    var u := s.wqs[q].list[k];
    Go(r, s, Take(v, k));
    var a := Apply(s, Take(v, k));
    TakenOut(s.wqs[q].list, k);
    var b := NewItem(a.used);
    assert a.workers[v] == Busy(u, []) && a.wqs[q].tail[0] == u && u !in a.wqs[q].list;
    Go(r, a, Join(q, b, v));
    var c := Apply(a, Join(q, b, v));
    assert c.workers[v] == Busy(u, [b]);
    Go(r, c, Done(v, None));
    t := Apply(c, Done(v, None));
  }

  lemma TakenOut(list: seq<Item>, k: nat)
    requires Once(list) && k < |list|
    ensures list[k] !in Without(list, k, k) && list[k + 1..k + 1] == []
  {
    forall j | 0 <= j < |list| && j != k ensures list[j] != list[k] { OnceAt(list, j, k); }
  }

  /** The first item of a hash that has any. */
  lemma {:induction false} FirstOf(list: seq<Item>, h: nat, n: nat) returns (i: nat)
    requires n < |list| && list[n].hash == Some(h)
    ensures i <= n && list[i].hash == Some(h) && forall j :: 0 <= j < i ==> list[j].hash != Some(h)
    decreases n
  {
    if j :| 0 <= j < n && list[j].hash == Some(h) {
      i := FirstOf(list, h, j);
    } else {
      i := n;
    }
  }

  /** The first item of a hash is where a scan comes to. */
  lemma FirstIsStart(list: seq<Item>, tail: map<nat, Item>, h: nat, i: nat)
    requires Ok(list, tail) && i < |list| && list[i].hash == Some(h)
    requires forall j :: 0 <= j < i ==> list[j].hash != Some(h)
    ensures RunStart(list, tail, i)
  {
    if i > 0 { assert LeadsOn(list, tail, i - 1); }
  }

  /** A free worker of a sound io-wq gets to run an item of hash 0, if the bit is clear. */
  lemma RunHash(r: State, s: State, v: nat) returns (t: State)
    requires Later(r, s) && Shape(s) && v < |s.workers| && s.workers[v].Free? && 0 !in s.busy
    requires Ok(s.wqs[s.owner[v]].list, s.wqs[s.owner[v]].tail)
    requires forall x :: x in s.wqs[s.owner[v]].list ==> x in s.used
    ensures Later(r, t) && |t.workers| == |s.workers| && Runs(t.workers[v], 0)
    ensures forall x :: 0 <= x < |s.workers| && x != v ==> t.workers[x] == s.workers[x]
  {
    var q := s.owner[v];
    var w := s.wqs[q];
    var d := NewItem(s.used);
    InsertOk(w.list, w.tail, d);
    Go(r, s, Enqueue(q, d));
    var a := Apply(s, Enqueue(q, d));
    var list := a.wqs[q].list;
    assert d in multiset(list);
    var n :| 0 <= n < |list| && list[n] == d;
    var i := FirstOf(list, 0, n);
    FirstIsStart(list, a.wqs[q].tail, 0, i);
    Go(r, a, Take(v, i));
    t := Apply(a, Take(v, i));
  }

  /** From a state with a wrong tail, two items of hash 0 come to run side by side. */
  lemma WrongTailBreaks(r: State, q: nat, k: nat, v: nat, u: nat)
    requires Sound(r) && q < |r.wqs| && WrongTail(r.wqs[q], k)
    requires v < |r.workers| && u < |r.workers| && r.owner[v] == q && r.owner[u] != q
    requires Ok(r.wqs[r.owner[u]].list, r.wqs[r.owner[u]].tail)
    requires forall x :: x in r.wqs[r.owner[u]].list ==> x in r.used
    ensures CanBreak(r)
  {
    Start(r);
    var a := FreeAll(r, r, |r.workers|);
    NothingHeld(a);
    var b := RunBare(r, a, q, k, v);
    var c := RunHash(r, b, u);
    assert SideBySide(c, u, v, 0);
  }

  /**
   Exactly when a cancel ends it, for an io-wq that has a worker and shares its hash map with another
   io-wq that has one: the cancel is mistaken.
   */
  lemma CancelBreaksIff(trace: seq<State>, steps: seq<Step>, q: nat, i: nat, v: nat, u: nat)
    requires IsRun(trace, steps) && Careful(trace, steps)
    requires var s := trace[|steps|];
             && Enabled(s, Cancel(q, i)) && v < |s.workers| && u < |s.workers| && s.owner[v] == q && s.owner[u] != q
    ensures CanBreak(Apply(trace[|steps|], Cancel(q, i))) <==> Mistake(trace[|steps|], Cancel(q, i))
  {
    var s := trace[|steps|];
    RunInv(trace, steps, |steps|);
    if Mistake(s, Cancel(q, i)) {
      var t := Apply(s, Cancel(q, i));
      assert Ok(s.wqs[q].list, s.wqs[q].tail) && Ok(s.wqs[s.owner[u]].list, s.wqs[s.owner[u]].tail);
      assert ApartOne(s.wqs[s.owner[u]].list, s.begun[s.owner[u]], s.used);
      MistakeLeaves(s.wqs[q], i);
      WrongTailBreaks(t, q, i - 1, v, u);
    } else {
      StepOk(s, Cancel(q, i));
      InvHolds(Apply(s, Cancel(q, i)));
    }
  }
}
