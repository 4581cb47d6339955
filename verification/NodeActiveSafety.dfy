/**
 Per-node concurrency accounting over every run.  The shared count is the sum of the pwqs'
 counts; it never passes the limit; and as long as the limit stays at or above some floor, a
 pwq with waiting items is on the pending list and, once every operation has finished, at
 least floor items are active.  With a floor of one nothing can stall; with a limit that never
 changes no capacity is left idle; with a limit of zero, as while freezing, work can be lost.
 */
module NodeActiveSafety {
  import opened NodeActive
  import opened Sums

  // ---------------------------------------------------------------- counts

  /** A count taken from nr that no pwq shows yet, or given up by a pwq but not yet by nr. */
  function Owed(op: Op): nat { if op.Got? || op.Dec1? then 1 else 0 }

  function OwedAll(ops: seq<Op>): nat { if ops == [] then 0 else Owed(ops[0]) + OwedAll(ops[1..]) }

  lemma {:induction false} OwedUpdate(ops: seq<Op>, t: nat, op: Op)
    requires t < |ops|
    ensures OwedAll(ops[t := op]) == OwedAll(ops) - Owed(ops[t]) + Owed(op)
  {
    if t == 0 {
      assert ops[0 := op][1..] == ops[1..];
    } else {
      assert ops[t := op][1..] == ops[1..][t - 1 := op];
      OwedUpdate(ops[1..], t - 1, op);
    }
  }

  predicate Retiring(op: Op) {
    op.Dec2? || op.Dec3? || op.Act? || op.ActIn? || op.ActWait? || op.ActTry? || op.ActMax?
  }

  /** A thread that took the count below the floor and has yet to pass the count on. */
  function Duty(op: Op, floor: int): nat { if Retiring(op) && op.v < floor then 1 else 0 }

  function DutyAll(ops: seq<Op>, floor: int): nat {
    if ops == [] then 0 else Duty(ops[0], floor) + DutyAll(ops[1..], floor)
  }

  lemma {:induction false} DutyUpdate(ops: seq<Op>, t: nat, op: Op, floor: int)
    requires t < |ops|
    ensures DutyAll(ops[t := op], floor) == DutyAll(ops, floor) - Duty(ops[t], floor) + Duty(op, floor)
  {
    if t == 0 {
      assert ops[0 := op][1..] == ops[1..];
    } else {
      assert ops[t := op][1..] == ops[1..][t - 1 := op];
      DutyUpdate(ops[1..], t - 1, op, floor);
    }
  }

  lemma {:induction false} QuietSums(ops: seq<Op>, floor: int)
    requires forall t :: 0 <= t < |ops| ==> ops[t].Idle?
    ensures OwedAll(ops) == 0 && DutyAll(ops, floor) == 0
  {
    if ops == [] {
    } else {
      QuietSums(ops[1..], floor);
    }
  }

  // ---------------------------------------------------------------- the invariant

  predicate Apart(poolOf: seq<nat>, a: Op, b: Op) {
    && (PoolHeld(poolOf, a) == -1 || PoolHeld(poolOf, a) != PoolHeld(poolOf, b))
    && !(NnaHeld(a) && NnaHeld(b))
  }

  /** Every lock has at most one holder. */
  predicate Exclusive(poolOf: seq<nat>, ops: seq<Op>) {
    forall t, u :: 0 <= t < |ops| && 0 <= u < |ops| && t != u ==> Apart(poolOf, ops[t], ops[u])
  }

  /** Under its pool's lock, a pwq that tries for a new item has none waiting and is not waiting. */
  predicate Facing(pending: seq<nat>, inactive: seq<seq<nat>>, p: nat, why: Why) {
    p < |inactive| && if why.Fill? then inactive[p] != [] else inactive[p] == [] && p !in pending
  }

  predicate Trying(pending: seq<nat>, inactive: seq<seq<nat>>, p: nat, why: Why, added: bool) {
    p < |inactive| && p in pending && (if why.Fill? then inactive[p] != [] && !added else inactive[p] == [] && added)
  }

  predicate Chosen(poolOf: seq<nat>, pending: seq<nat>, inactive: seq<seq<nat>>, pool: nat) {
    && pending != [] && pending[0] < |poolOf| == |inactive|
    && poolOf[pending[0]] == pool && inactive[pending[0]] != []
  }

  predicate Fact(poolOf: seq<nat>, pending: seq<nat>, inactive: seq<seq<nat>>, op: Op, floor: int) {
    match op
    case Try1(p, why) => Facing(pending, inactive, p, why)
    case Try1Max(p, why, m) => Facing(pending, inactive, p, why) && m >= floor
    case WantNna(p, why) => Facing(pending, inactive, p, why)
    case Try2(p, why, added) => Trying(pending, inactive, p, why, added)
    case Try2Max(p, why, added, m) => Trying(pending, inactive, p, why, added) && m >= floor
    case Got(p, why) => Facing(pending, inactive, p, why)
    case Lost(p, why) => p < |inactive| && p in pending
    case ActTry(pool, _) => Chosen(poolOf, pending, inactive, pool)
    case ActMax(pool, _, m) => Chosen(poolOf, pending, inactive, pool) && m >= floor
    case _ => true
  }

  predicate Facts(poolOf: seq<nat>, pending: seq<nat>, inactive: seq<seq<nat>>, ops: seq<Op>, floor: int) {
    forall t :: 0 <= t < |ops| ==> Fact(poolOf, pending, inactive, ops[t], floor)
  }

  /** A pwq with waiting items is on the pending list. */
  predicate Listed(pending: seq<nat>, inactive: seq<seq<nat>>) {
    forall p :: 0 <= p < |inactive| && inactive[p] != [] ==> p in pending
  }

  predicate Once(pending: seq<nat>) { pending == [] || (pending[0] !in pending[1..] && Once(pending[1..])) }

  predicate InWindow(op: Op, x: nat) { (op.Try2? || op.Try2Max?) && op.added && op.p == x }

  /** x was put on the list by a thread that still holds the node's lock and will try again. */
  predicate Windowed(ops: seq<Op>, x: nat) { exists t :: 0 <= t < |ops| && InWindow(ops[t], x) }

  /** Whoever waits, waits for a count that is in use or about to be passed on. */
  predicate Kept(pending: seq<nat>, ops: seq<Op>, nr: int, floor: int) {
    nr + DutyAll(ops, floor) >= floor || forall x :: x in pending ==> Windowed(ops, x)
  }

  predicate Counted(nr: int, active: seq<nat>, ops: seq<Op>) { nr == Sum(active) + OwedAll(ops) }

  predicate Inv(s: State, floor: int) {
    && Shape(s) && Exclusive(s.poolOf, s.ops)
    && Facts(s.poolOf, s.pending, s.inactive, s.ops, floor)
    && Listed(s.pending, s.inactive) && Once(s.pending)
    && Counted(s.nr, s.active, s.ops) && Kept(s.pending, s.ops, s.nr, floor)
  }

  // ---------------------------------------------------------------- frames

  /** Thread t may move to op when it keeps its locks, drops them, or takes free ones. */
  lemma ExclusiveMove(poolOf: seq<nat>, ops: seq<Op>, t: nat, op: Op)
    requires Exclusive(poolOf, ops) && t < |ops|
    requires PoolHeld(poolOf, op) == PoolHeld(poolOf, ops[t]) || PoolHeld(poolOf, op) == -1
             || (PoolHeld(poolOf, op) >= 0 && PoolFree(poolOf, ops, PoolHeld(poolOf, op)))
    requires NnaHeld(op) ==> NnaHeld(ops[t]) || NnaFree(ops)
    ensures Exclusive(poolOf, ops[t := op])
  {
    var ops' := ops[t := op];
    forall a, b | 0 <= a < |ops'| && 0 <= b < |ops'| && a != b
      ensures Apart(poolOf, ops'[a], ops'[b])
    {
      assert Apart(poolOf, ops[a], ops[b]) && Apart(poolOf, ops[b], ops[a]);
    }
  }

  /** What a thread relies on survives a change at a pwq whose pool it does not hold. */
  lemma FactFrame(poolOf: seq<nat>, pending: seq<nat>, inactive: seq<seq<nat>>, pending': seq<nat>,
                  inactive': seq<seq<nat>>,
                  op: Op, floor: int, x: nat)
    requires Fact(poolOf, pending, inactive, op, floor) && x < |poolOf| == |inactive| == |inactive'|
    requires HasPwq(op) ==> op.p < |poolOf|
    requires PoolHeld(poolOf, op) != poolOf[x]
    requires forall y :: y != x ==> (y in pending <==> y in pending')
    requires forall y :: 0 <= y < |inactive| && y != x ==> inactive[y] == inactive'[y]
    requires NnaHeld(op) ==> pending == pending'
    ensures Fact(poolOf, pending', inactive', op, floor)
  {
  }

  lemma FactsMove(s: State, t: nat, op: Op, pending': seq<nat>, inactive': seq<seq<nat>>, floor: int, x: nat)
    requires Shape(s) && Exclusive(s.poolOf, s.ops) && Facts(s.poolOf, s.pending, s.inactive, s.ops, floor)
    requires t < |s.ops| && x < |s.poolOf| && |inactive'| == |s.inactive|
    requires PoolHeld(s.poolOf, s.ops[t]) == s.poolOf[x] || PoolFree(s.poolOf, s.ops, s.poolOf[x])
    requires forall y :: y != x ==> (y in s.pending <==> y in pending')
    requires forall y :: 0 <= y < |s.inactive| && y != x ==> s.inactive[y] == inactive'[y]
    requires s.pending == pending' || NnaHeld(s.ops[t]) || NnaFree(s.ops)
    requires Fact(s.poolOf, pending', inactive', op, floor)
    ensures Facts(s.poolOf, pending', inactive', s.ops[t := op], floor)
  {
    var ops' := s.ops[t := op];
    forall u | 0 <= u < |ops'|
      ensures Fact(s.poolOf, pending', inactive', ops'[u], floor)
    {
      if u != t {
        assert Apart(s.poolOf, s.ops[u], s.ops[t]);
        FactFrame(s.poolOf, s.pending, s.inactive, pending', inactive', s.ops[u], floor, x);
      }
    }
  }

  /** The same when no thread moves. */
  lemma FactsStay(s: State, inactive': seq<seq<nat>>, floor: int, x: nat)
    requires Shape(s) && Facts(s.poolOf, s.pending, s.inactive, s.ops, floor)
    requires x < |s.poolOf| && |inactive'| == |s.inactive| && PoolFree(s.poolOf, s.ops, s.poolOf[x])
    requires forall y :: 0 <= y < |s.inactive| && y != x ==> s.inactive[y] == inactive'[y]
    ensures Facts(s.poolOf, s.pending, inactive', s.ops, floor)
  {
    forall u | 0 <= u < |s.ops|
      ensures Fact(s.poolOf, s.pending, inactive', s.ops[u], floor)
    {
      FactFrame(s.poolOf, s.pending, s.inactive, s.pending, inactive', s.ops[u], floor, x);
    }
  }

  predicate LocksMove(s: State, t: nat, op: Op)
    requires t < |s.ops|
  {
    && (PoolHeld(s.poolOf, op) == PoolHeld(s.poolOf, s.ops[t]) || PoolHeld(s.poolOf, op) == -1
        || (PoolHeld(s.poolOf, op) >= 0 && PoolFree(s.poolOf, s.ops, PoolHeld(s.poolOf, op))))
    && (NnaHeld(op) ==> NnaHeld(s.ops[t]) || NnaFree(s.ops))
  }

  /** Nothing is forgotten: the count covers the floor, nobody waits, or duty and window are kept. */
  predicate DutyMoves(s: State, t: nat, op: Op, floor: int)
    requires t < |s.ops|
  {
    || s.nr >= floor || s.pending == []
    || (Duty(op, floor) >= Duty(s.ops[t], floor) && !InWindow(s.ops[t], if HasPwq(s.ops[t]) then s.ops[t].p else 0))
    || (op.Try2Max? && s.ops[t].Try2? && op.p == s.ops[t].p && op.added == s.ops[t].added)
  }

  lemma KeptMove(pending: seq<nat>, pending': seq<nat>, ops: seq<Op>, nr: int, nr': int, t: nat, op: Op, floor: int)
    requires Kept(pending, ops, nr, floor) && t < |ops|
    requires forall x :: x in pending' ==> x in pending || InWindow(op, x)
    requires nr' + Duty(op, floor) >= nr + Duty(ops[t], floor)
    requires forall x :: x in pending' && InWindow(ops[t], x) ==> InWindow(op, x)
    ensures Kept(pending', ops[t := op], nr', floor)
  {
    DutyUpdate(ops, t, op, floor);
    var ops' := ops[t := op];
    if nr + DutyAll(ops, floor) < floor {
      forall x | x in pending'
        ensures Windowed(ops', x)
      {
        if InWindow(op, x) {
          assert InWindow(ops'[t], x);
        } else {
          var u :| 0 <= u < |ops| && InWindow(ops[u], x);
          assert InWindow(ops'[u], x);
        }
      }
    }
  }

  /** A thread moves on and touches nothing but its own place. */
  lemma PlainMove(s: State, t: nat, op: Op, floor: int)
    requires Inv(s, floor) && t < |s.ops| && LocksMove(s, t, op) && DutyMoves(s, t, op, floor)
    requires HasPwq(op) ==> op.p < |s.poolOf|
    requires Fact(s.poolOf, s.pending, s.inactive, op, floor) && Owed(op) == Owed(s.ops[t])
    ensures Inv(With(s, t, op), floor)
  {
    ExclusiveMove(s.poolOf, s.ops, t, op);
    OwedUpdate(s.ops, t, op);
    DutyUpdate(s.ops, t, op, floor);
    if s.nr < floor && s.pending != [] {
      KeptMove(s.pending, s.pending, s.ops, s.nr, s.nr, t, op, floor);
    }
  }

  // ---------------------------------------------------------------- lists without repeats

  lemma {:induction false} OnceWithout(pending: seq<nat>, p: nat)
    requires Once(pending)
    ensures Once(Without(pending, p))
  {
    if pending != [] {
      OnceWithout(pending[1..], p);
      var r := Without(pending[1..], p);
      if pending[0] != p { assert ([pending[0]] + r)[1..] == r; }
    }
  }

  lemma {:induction false} OnceAppend(pending: seq<nat>, p: nat)
    requires Once(pending) && p !in pending
    ensures Once(pending + [p])
  {
    if pending == [] {
      assert pending + [p] == [p];
    } else {
      OnceAppend(pending[1..], p);
      assert (pending + [p])[1..] == pending[1..] + [p];
    }
  }

  // ---------------------------------------------------------------- the steps

  lemma QueueStartOk(s: State, t: nat, p: nat, work: nat, floor: int)
    requires Inv(s, floor) && CanStart(s, t, p)
    ensures Inv(StartQueue(s, t, p, work), floor)
  {
    if s.inactive[p] != [] || p in s.pending {
      var inactive' := s.inactive[p := s.inactive[p] + [work]];
      FactsStay(s, inactive', floor, p);
    } else {
      PlainMove(s, t, Try1(p, Queue(work)), floor);
    }
  }

  lemma CancelOk(s: State, p: nat, i: nat, floor: int)
    requires Inv(s, floor) && Enabled(s, Cancel(p, i))
    ensures Inv(Apply(s, Cancel(p, i)), floor)
  {
    FactsStay(s, s.inactive[p := s.inactive[p][..i] + s.inactive[p][i + 1..]], floor, p);
  }

  lemma RetireStartOk(s: State, t: nat, p: nat, floor: int)
    requires Inv(s, floor) && CanStart(s, t, p) && s.active[p] > 0
    ensures Inv(Apply(s, RetireStart(t, p)), floor)
  {
    var op := Dec1(p);
    ExclusiveMove(s.poolOf, s.ops, t, op);
    OwedUpdate(s.ops, t, op);
    SumUpdate(s.active, p, s.active[p] - 1);
    KeptMove(s.pending, s.pending, s.ops, s.nr, s.nr, t, op, floor);
  }

  lemma FirstTryOk(s: State, t: nat, p: nat, why: Why, m: int, floor: int)
    requires Inv(s, floor) && t < |s.ops| && s.ops[t] == Try1Max(p, why, m)
    ensures Inv(FirstTry(s, t, p, why, m), floor)
  {
    assert Fact(s.poolOf, s.pending, s.inactive, s.ops[t], floor);
    if s.nr < m {
      var op := Got(p, why);
      ExclusiveMove(s.poolOf, s.ops, t, op);
      OwedUpdate(s.ops, t, op);
      KeptMove(s.pending, s.pending, s.ops, s.nr, s.nr + 1, t, op, floor);
    } else {
      PlainMove(s, t, WantNna(p, why), floor);
    }
  }

  lemma AddPendingOk(s: State, t: nat, p: nat, why: Why, floor: int)
    requires Inv(s, floor) && t < |s.ops| && s.ops[t] == WantNna(p, why) && NnaFree(s.ops)
    ensures Inv(AddPending(s, t, p, why), floor)
  {
    assert Fact(s.poolOf, s.pending, s.inactive, s.ops[t], floor);
    if why.Fill? {
      assert p in s.pending;
      PlainMove(s, t, Try2(p, why, false), floor);
    } else {
      var op := Try2(p, why, true);
      ExclusiveMove(s.poolOf, s.ops, t, op);
      OwedUpdate(s.ops, t, op);
      OnceAppend(s.pending, p);
      FactsMove(s, t, op, s.pending + [p], s.inactive, floor, p);
      KeptMove(s.pending, s.pending + [p], s.ops, s.nr, s.nr, t, op, floor);
    }
  }

  lemma SecondTryOk(s: State, t: nat, p: nat, why: Why, added: bool, m: int, floor: int)
    requires Inv(s, floor) && t < |s.ops| && s.ops[t] == Try2Max(p, why, added, m)
    ensures Inv(SecondTry(s, t, p, why, m), floor)
  {
    assert Fact(s.poolOf, s.pending, s.inactive, s.ops[t], floor);
    if s.nr >= m {
      PlainMove(s, t, Lost(p, why), floor);
    } else {
      var op := Got(p, why);
      var pending' := if why.Fill? then s.pending else Without(s.pending, p);
      ExclusiveMove(s.poolOf, s.ops, t, op);
      OwedUpdate(s.ops, t, op);
      OnceWithout(s.pending, p);
      forall i | 0 <= i < |pending'|
        ensures pending'[i] < |s.poolOf|
      {
        assert pending'[i] in s.pending;
      }
      FactsMove(s, t, op, pending', s.inactive, floor, p);
      KeptMove(s.pending, pending', s.ops, s.nr, s.nr + 1, t, op, floor);
    }
  }

  lemma GotOk(s: State, t: nat, p: nat, why: Why, floor: int)
    requires Inv(s, floor) && t < |s.ops| && s.ops[t] == Got(p, why)
    ensures Inv(Finish(s, t, p, why, true), floor)
  {
    assert Fact(s.poolOf, s.pending, s.inactive, s.ops[t], floor);
    var inactive' := if why.Fill? then s.inactive[p := Rest(s.inactive[p])] else s.inactive;
    ExclusiveMove(s.poolOf, s.ops, t, Idle);
    OwedUpdate(s.ops, t, Idle);
    SumUpdate(s.active, p, s.active[p] + 1);
    FactsMove(s, t, Idle, s.pending, inactive', floor, p);
    KeptMove(s.pending, s.pending, s.ops, s.nr, s.nr, t, Idle, floor);
  }

  lemma LostOk(s: State, t: nat, p: nat, why: Why, floor: int)
    requires Inv(s, floor) && t < |s.ops| && s.ops[t] == Lost(p, why)
    ensures Inv(Finish(s, t, p, why, false), floor)
  {
    assert Fact(s.poolOf, s.pending, s.inactive, s.ops[t], floor);
    if why.Fill? {
      PlainMove(s, t, Idle, floor);
    } else {
      var inactive' := s.inactive[p := s.inactive[p] + [why.work]];
      ExclusiveMove(s.poolOf, s.ops, t, Idle);
      OwedUpdate(s.ops, t, Idle);
      FactsMove(s, t, Idle, s.pending, inactive', floor, p);
      KeptMove(s.pending, s.pending, s.ops, s.nr, s.nr, t, Idle, floor);
    }
  }

  lemma DecOk(s: State, t: nat, p: nat, floor: int)
    requires Inv(s, floor) && t < |s.ops| && s.ops[t] == Dec1(p)
    ensures Inv(With(s, t, Dec2(p, s.nr - 1)).(nr := s.nr - 1), floor)
  {
    var op := Dec2(p, s.nr - 1);
    ExclusiveMove(s.poolOf, s.ops, t, op);
    OwedUpdate(s.ops, t, op);
    if s.nr - 1 < floor {
      KeptMove(s.pending, s.pending, s.ops, s.nr, s.nr - 1, t, op, floor);
    }
  }

  lemma SearchOk(s: State, t: nat, pool: nat, v: int, floor: int)
    requires Inv(s, floor) && t < |s.ops| && s.ops[t] == ActIn(pool, v)
    ensures Inv(Search(s, t, pool, v), floor)
  {
    if s.pending == [] {
      PlainMove(s, t, Idle, floor);
    } else {
      var x := s.pending[0];
      if s.poolOf[x] != pool {
        PlainMove(s, t, if PoolFree(s.poolOf, s.ops, s.poolOf[x]) then ActIn(s.poolOf[x], v)
          else ActWait(s.poolOf[x], v), floor);
      } else if s.inactive[x] == [] {
        var pending' := s.pending[1..];
        assert s.pending == [x] + pending';
        FactsMove(s, t, s.ops[t], pending', s.inactive, floor, x);
        assert s.ops[t := s.ops[t]] == s.ops;
        KeptMove(s.pending, pending', s.ops, s.nr, s.nr, t, s.ops[t], floor);
      } else {
        PlainMove(s, t, ActTry(pool, v), floor);
      }
    }
  }

  /** The first pwq goes to the back, or off the list when it has nothing left. */
  lemma RotateOk(pending: seq<nat>, inactive: seq<seq<nat>>, left: seq<nat>)
    requires pending != [] && pending[0] < |inactive| && Once(pending) && Listed(pending, inactive)
    ensures var pending' := pending[1..] + (if left == [] then [] else [pending[0]]);
            && Once(pending') && Listed(pending', inactive[pending[0] := left])
            && (forall p :: p in pending' ==> p in pending)
            && (forall p :: p in pending && p != pending[0] ==> p in pending')
  {
    var x := pending[0];
    assert pending == [x] + pending[1..];
    OnceAppend(pending[1..], x);
    assert left == [] ==> pending[1..] + [] == pending[1..];
  }

  lemma ActivateOk(s: State, t: nat, pool: nat, v: int, m: int, floor: int)
    requires Inv(s, floor) && t < |s.ops| && s.ops[t] == ActMax(pool, v, m)
    ensures Inv(Activate(s, t, m), floor)
  {
    assert Fact(s.poolOf, s.pending, s.inactive, s.ops[t], floor);
    if s.nr >= m {
      PlainMove(s, t, Idle, floor);
    } else {
      var x := s.pending[0];
      var left := Rest(s.inactive[x]);
      var pending' := s.pending[1..] + (if left == [] then [] else [x]);
      ExclusiveMove(s.poolOf, s.ops, t, Idle);
      OwedUpdate(s.ops, t, Idle);
      SumUpdate(s.active, x, s.active[x] + 1);
      RotateOk(s.pending, s.inactive, left);
      FactsMove(s, t, Idle, pending', s.inactive[x := left], floor, x);
      KeptMove(s.pending, pending', s.ops, s.nr, s.nr + 1, t, Idle, floor);
    }
  }

  lemma TryStepOk(s: State, t: nat, floor: int)
    requires Inv(s, floor) && Enabled(s, Go(t)) && s.max >= floor && InTry(s.ops[t])
    ensures Inv(TryStep(s, t), floor)
  {
    assert Fact(s.poolOf, s.pending, s.inactive, s.ops[t], floor);
    match s.ops[t]
    case Try1(p, why) => PlainMove(s, t, Try1Max(p, why, s.max), floor);
    case Try1Max(p, why, m) => FirstTryOk(s, t, p, why, m, floor);
    case WantNna(p, why) => AddPendingOk(s, t, p, why, floor);
    case Try2(p, why, added) => PlainMove(s, t, Try2Max(p, why, added, s.max), floor);
    case Try2Max(p, why, added, m) => SecondTryOk(s, t, p, why, added, m, floor);
    case Got(p, why) => GotOk(s, t, p, why, floor);
    case Lost(p, why) => LostOk(s, t, p, why, floor);
  }

  lemma CheckOk(s: State, t: nat, floor: int)
    requires Inv(s, floor) && Enabled(s, Go(t)) && s.max >= floor && (s.ops[t].Dec2? || s.ops[t].Dec3?)
    ensures Inv(RetireStep(s, t), floor)
  {
    match s.ops[t]
    case Dec2(p, v) => PlainMove(s, t, if v >= s.max then Idle else Dec3(p, v), floor);
    case Dec3(p, v) => PlainMove(s, t, if s.pending == [] then Idle else Act(s.poolOf[p], v), floor);
  }

  lemma LockOk(s: State, t: nat, floor: int)
    requires Inv(s, floor) && Enabled(s, Go(t)) && s.max >= floor
    requires s.ops[t].Act? || s.ops[t].ActWait? || s.ops[t].ActTry?
    ensures Inv(RetireStep(s, t), floor)
  {
    assert Fact(s.poolOf, s.pending, s.inactive, s.ops[t], floor);
    match s.ops[t]
    case Act(pool, v) => PlainMove(s, t, ActIn(pool, v), floor);
    case ActWait(pool, v) => PlainMove(s, t, Act(pool, v), floor);
    case ActTry(pool, v) => PlainMove(s, t, ActMax(pool, v, s.max), floor);
  }

  lemma DecStepOk(s: State, t: nat, floor: int)
    requires Inv(s, floor) && Enabled(s, Go(t)) && s.max >= floor
    requires (s.ops[t].Dec1? || s.ops[t].Dec2? || s.ops[t].Dec3?)
    ensures Inv(RetireStep(s, t), floor)
  {
    if s.ops[t].Dec1? { DecOk(s, t, s.ops[t].p, floor); } else { CheckOk(s, t, floor); }
  }

  lemma ActStepOk(s: State, t: nat, floor: int)
    requires Inv(s, floor) && Enabled(s, Go(t)) && s.max >= floor && (s.ops[t].ActIn? || s.ops[t].ActMax?)
    ensures Inv(RetireStep(s, t), floor)
  {
    match s.ops[t]
    case ActIn(pool, v) => SearchOk(s, t, pool, v, floor);
    case ActMax(pool, v, m) => ActivateOk(s, t, pool, v, m, floor);
  }

  lemma RetireStepOk(s: State, t: nat, floor: int)
    requires Inv(s, floor) && Enabled(s, Go(t)) && s.max >= floor && !InTry(s.ops[t])
    ensures Inv(RetireStep(s, t), floor)
  {
    var op := s.ops[t];
    if op.Dec1? || op.Dec2? || op.Dec3? {
      DecStepOk(s, t, floor);
    } else if op.ActIn? || op.ActMax? {
      ActStepOk(s, t, floor);
    } else {
      LockOk(s, t, floor);
    }
  }

  lemma StepOk(s: State, step: Step, floor: int)
    requires Inv(s, floor) && Enabled(s, step) && s.max >= floor
    ensures Inv(Apply(s, step), floor)
  {
    match step
    case QueueStart(t, p, work) => QueueStartOk(s, t, p, work, floor);
    case FillStart(t, p) => if s.inactive[p] != [] { PlainMove(s, t, Try1(p, Fill), floor); }
    case RetireStart(t, p) => RetireStartOk(s, t, p, floor);
    case Cancel(p, i) => CancelOk(s, p, i, floor);
    case SetMax(_) =>
    case Go(t) => if InTry(s.ops[t]) { TryStepOk(s, t, floor); } else { RetireStepOk(s, t, floor); }
  }

  // ---------------------------------------------------------------- every run

  lemma InitOk(s: State, floor: int)
    requires Init(s)
    ensures Inv(s, floor)
  {
    QuietSums(s.ops, floor);
    SumZero(s.active);
  }

  /** The limit never drops below the floor. */
  predicate Floor(trace: seq<State>, floor: int) { forall i :: 0 <= i < |trace| ==> trace[i].max >= floor }

  lemma {:induction false} RunInv(trace: seq<State>, steps: seq<Step>, floor: int, i: nat)
    requires IsRun(trace, steps) && Floor(trace, floor) && i < |trace|
    ensures Inv(trace[i], floor)
  {
    if i == 0 {
      InitOk(trace[0], floor);
    } else {
      RunInv(trace, steps, floor, i - 1);
      assert IsStep(trace, steps, i - 1);
      StepOk(trace[i - 1], steps[i - 1], floor);
    }
  }

  lemma {:induction false} LowestMax(trace: seq<State>) returns (floor: int)
    ensures Floor(trace, floor)
  {
    if trace == [] {
      floor := 0;
    } else {
      floor := LowestMax(trace[..|trace| - 1]);
      var last := trace[|trace| - 1].max;
      if last < floor { floor := last; }
      assert forall i :: 0 <= i < |trace| - 1 ==> trace[i] == trace[..|trace| - 1][i];
    }
  }

  /** In every reachable state nr is the sum of the pwqs' counts and the counts in transit. */
  lemma CountsAgree(trace: seq<State>, steps: seq<Step>, i: nat)
    requires IsRun(trace, steps) && i < |trace|
    ensures trace[i].nr == Sum(trace[i].active) + OwedAll(trace[i].ops)
    ensures Quiet(trace[i]) ==> trace[i].nr == Sum(trace[i].active)
  {
    var floor := LowestMax(trace);
    RunInv(trace, steps, floor, i);
    if Quiet(trace[i]) { QuietSums(trace[i].ops, floor); }
  }

  /** Two operations never hold the same pool's lock, or the node's, at once. */
  lemma LocksExclude(trace: seq<State>, steps: seq<Step>, i: nat)
    requires IsRun(trace, steps) && i < |trace|
    ensures Exclusive(trace[i].poolOf, trace[i].ops)
  {
    var floor := LowestMax(trace);
    RunInv(trace, steps, floor, i);
  }

  /**
   Nothing waits beside idle capacity: if the limit never drops below the floor, then at every
   moment at which some item waits, its pwq is on the pending list and the counts in use, with those
   that operations under way have yet to pass on, reach the floor.  Once every operation has finished
   at least floor items are active.
   */
  lemma NoIdleCapacity(trace: seq<State>, steps: seq<Step>, floor: int, i: nat, p: nat)
    requires IsRun(trace, steps) && Floor(trace, floor) && i < |trace|
    requires p < |trace[i].inactive| && trace[i].inactive[p] != []
    ensures p in trace[i].pending && trace[i].nr + DutyAll(trace[i].ops, floor) >= floor
    ensures Quiet(trace[i]) ==> Sum(trace[i].active) == trace[i].nr >= floor
  {
    var s := trace[i];
    RunInv(trace, steps, floor, i);
    forall t | 0 <= t < |s.ops|
      ensures !InWindow(s.ops[t], p)
    {
      assert Fact(s.poolOf, s.pending, s.inactive, s.ops[t], floor);
    }
    if Quiet(s) { QuietSums(s.ops, floor); }
  }

  /** The operation holds a count, or has one to pass on. */
  predicate UnderWay(op: Op) { Owed(op) > 0 || Duty(op, 1) > 0 }

  lemma {:induction false} SomeUnderWay(ops: seq<Op>)
    requires OwedAll(ops) > 0 || DutyAll(ops, 1) > 0
    ensures exists t :: 0 <= t < |ops| && UnderWay(ops[t])
  {
    if UnderWay(ops[0]) {
    } else {
      SomeUnderWay(ops[1..]);
      var t :| 0 <= t < |ops[1..]| && UnderWay(ops[1..][t]);
      assert UnderWay(ops[t + 1]);
    }
  }

  /**
   So with a limit of at least one, an item that waits always has something to wait for: an
   active item, or an operation that holds a count or has one to pass on.
   */
  lemma NoStall(trace: seq<State>, steps: seq<Step>, i: nat, p: nat)
    requires IsRun(trace, steps) && Floor(trace, 1) && i < |trace|
    requires p < |trace[i].inactive| && trace[i].inactive[p] != []
    ensures p in trace[i].pending
    ensures || (exists q :: 0 <= q < |trace[i].active| && trace[i].active[q] > 0)
            || (exists t :: 0 <= t < |trace[i].ops| && UnderWay(trace[i].ops[t]))
    ensures Quiet(trace[i]) ==> exists q :: 0 <= q < |trace[i].active| && trace[i].active[q] > 0
  {
    NoIdleCapacity(trace, steps, 1, i, p);
    RunInv(trace, steps, 1, i);
    if Quiet(trace[i]) { QuietSums(trace[i].ops, 1); }
    if Sum(trace[i].active) > 0 { SumPositive(trace[i].active); } else { SomeUnderWay(trace[i].ops); }
  }

  // ---------------------------------------------------------------- the limit

  predicate Ceiling(trace: seq<State>, ceiling: int) { forall i :: 0 <= i < |trace| ==> trace[i].max <= ceiling }

  predicate Below(ops: seq<Op>, ceiling: int) {
    forall t :: 0 <= t < |ops| ==> (ops[t].Try1Max? || ops[t].Try2Max? || ops[t].ActMax? ==> ops[t].m <= ceiling)
  }

  lemma BelowMove(ops: seq<Op>, t: nat, op: Op, ceiling: int)
    requires Below(ops, ceiling) && t < |ops|
    requires op.Try1Max? || op.Try2Max? || op.ActMax? ==> op.m <= ceiling
    ensures Below(ops[t := op], ceiling)
  {
  }

  lemma TryBelow(s: State, t: nat, ceiling: int)
    requires Enabled(s, Go(t)) && InTry(s.ops[t]) && s.max <= ceiling && s.nr <= ceiling && Below(s.ops, ceiling)
    ensures TryStep(s, t).nr <= ceiling && Below(TryStep(s, t).ops, ceiling)
  {
    BelowMove(s.ops, t, TryStep(s, t).ops[t], ceiling);
  }

  lemma RetireBelow(s: State, t: nat, ceiling: int)
    requires Enabled(s, Go(t)) && !InTry(s.ops[t]) && s.max <= ceiling && s.nr <= ceiling && Below(s.ops, ceiling)
    ensures RetireStep(s, t).nr <= ceiling && Below(RetireStep(s, t).ops, ceiling)
  {
    BelowMove(s.ops, t, RetireStep(s, t).ops[t], ceiling);
    assert RetireStep(s, t).ops == s.ops || RetireStep(s, t).ops == s.ops[t := RetireStep(s, t).ops[t]];
  }

  lemma StepBelow(s: State, step: Step, ceiling: int)
    requires Enabled(s, step) && s.max <= ceiling && s.nr <= ceiling && Below(s.ops, ceiling)
    ensures Apply(s, step).nr <= ceiling && Below(Apply(s, step).ops, ceiling)
  {
    if step.Go? {
      if InTry(s.ops[step.t]) { TryBelow(s, step.t, ceiling); } else { RetireBelow(s, step.t, ceiling); }
    }
  }

  /** However the limit moves below a ceiling, the count never passes the ceiling. */
  lemma {:induction false} NeverAbove(trace: seq<State>, steps: seq<Step>, ceiling: int, i: nat)
    requires IsRun(trace, steps) && Ceiling(trace, ceiling) && 0 <= ceiling && i < |trace|
    ensures trace[i].nr <= ceiling && Below(trace[i].ops, ceiling)
    ensures Sum(trace[i].active) <= ceiling
  {
    if i > 0 {
      NeverAbove(trace, steps, ceiling, i - 1);
      assert IsStep(trace, steps, i - 1);
      StepBelow(trace[i - 1], steps[i - 1], ceiling);
    }
    CountsAgree(trace, steps, i);
  }

  // ---------------------------------------------------------------- freezing

  /** Everything has finished, there is capacity, and still an item waits with nothing active. */
  predicate Stalled(s: State) {
    Quiet(s) && s.max >= 1 && Sum(s.active) == 0 && exists p :: 0 <= p < |s.inactive| && s.inactive[p] != []
  }

  /** One pwq and one thread. */
  function Small(max: int, pending: seq<nat>, inactive: seq<nat>, op: Op): State {
    State([0], 0, max, pending, [0], [inactive], [op])
  }

  /** Some run with a limit that is never negative comes to the state. */
  ghost predicate Reached(s: State) {
    exists trace: seq<State>, steps: seq<Step> :: IsRun(trace, steps) && Floor(trace, 0) && trace[|trace| - 1] == s
  }

  ghost predicate Moves(a: State, step: Step, b: State) { Enabled(a, step) && b == Apply(a, step) }

  lemma SmallWith(max: int, pending: seq<nat>, inactive: seq<nat>, op: Op, op': Op)
    ensures With(Small(max, pending, inactive, op), 0, op') == Small(max, pending, inactive, op')
  {
    assert [op][0 := op'] == [op'];
  }

  lemma FrozenQueue()
    ensures Moves(Small(0, [], [], Idle), QueueStart(0, 0, 7), Small(0, [], [], Try1(0, Queue(7))))
    ensures Moves(Small(0, [], [], Try1(0, Queue(7))), Go(0), Small(0, [], [], Try1Max(0, Queue(7), 0)))
    ensures Moves(Small(0, [], [], Try1Max(0, Queue(7), 0)), Go(0), Small(0, [], [], WantNna(0, Queue(7))))
  {
    SmallWith(0, [], [], Idle, Try1(0, Queue(7)));
    SmallWith(0, [], [], Try1(0, Queue(7)), Try1Max(0, Queue(7), 0));
    SmallWith(0, [], [], Try1Max(0, Queue(7), 0), WantNna(0, Queue(7)));
  }

  lemma FrozenWait()
    ensures Moves(Small(0, [], [], WantNna(0, Queue(7))), Go(0), Small(0, [0], [], Try2(0, Queue(7), true)))
  {
    SmallWith(0, [], [], WantNna(0, Queue(7)), Try2(0, Queue(7), true));
    assert [] + [0 as nat] == [0];
  }

  lemma FrozenAgain()
    ensures Moves(Small(0, [0], [], Try2(0, Queue(7), true)), Go(0), Small(0, [0], [], Try2Max(0, Queue(7), true, 0)))
  {
    SmallWith(0, [0], [], Try2(0, Queue(7), true), Try2Max(0, Queue(7), true, 0));
  }

  lemma FrozenOut()
    ensures Moves(Small(0, [0], [], Try2Max(0, Queue(7), true, 0)), Go(0), Small(0, [0], [], Lost(0, Queue(7))))
  {
    SmallWith(0, [0], [], Try2Max(0, Queue(7), true, 0), Lost(0, Queue(7)));
  }

  lemma FrozenLost()
    ensures Moves(Small(0, [0], [], Lost(0, Queue(7))), Go(0), Small(0, [0], [7], Idle))
    ensures Moves(Small(0, [0], [7], Idle), Cancel(0, 0), Small(0, [0], [], Idle))
  {
    SmallWith(0, [0], [], Lost(0, Queue(7)), Idle);
    var none: seq<nat> := [];
    assert none + [7] == [7] && [none][0 := [7]] == [[7]];
    assert [7 as nat][..0] + [7][1..] == none && [[7]][0 := none] == [none];
  }

  lemma FrozenThaw()
    ensures Moves(Small(0, [0], [], Idle), SetMax(5), Small(5, [0], [], Idle))
    ensures Moves(Small(5, [0], [], Idle), FillStart(0, 0), Small(5, [0], [], Idle))
    ensures Moves(Small(5, [0], [], Idle), QueueStart(0, 0, 8), Small(5, [0], [8], Idle))
  {
    var none: seq<nat> := [];
    assert none + [8] == [8] && [none][0 := [8]] == [[8]];
  }

  lemma Reach(s: State, step: Step, t: State)
    requires Reached(s) && Moves(s, step, t) && t.max >= 0
    ensures Reached(t)
  {
    var trace: seq<State>, steps: seq<Step> :| IsRun(trace, steps) && Floor(trace, 0) && trace[|trace| - 1] == s;
    var trace', steps' := trace + [t], steps + [step];
    forall i | 0 <= i < |steps'|
      ensures IsStep(trace', steps', i)
    {
      if i < |steps| { assert IsStep(trace, steps, i); }
    }
    assert IsRun(trace', steps') && Floor(trace', 0) && trace'[|trace'| - 1] == t;
  }

  lemma Begins()
    ensures Reached(Small(0, [], [], Idle))
  {
    var trace, steps: seq<Step> := [Small(0, [], [], Idle)], [];
    assert IsRun(trace, steps) && Floor(trace, 0) && trace[|trace| - 1] == Small(0, [], [], Idle);
  }

  lemma FrozenStart()
    ensures Reached(Small(0, [], [], WantNna(0, Queue(7))))
  {
    Begins();
    FrozenQueue();
    Reach(Small(0, [], [], Idle), QueueStart(0, 0, 7), Small(0, [], [], Try1(0, Queue(7))));
    Reach(Small(0, [], [], Try1(0, Queue(7))), Go(0), Small(0, [], [], Try1Max(0, Queue(7), 0)));
    Reach(Small(0, [], [], Try1Max(0, Queue(7), 0)), Go(0), Small(0, [], [], WantNna(0, Queue(7))));
  }

  /** The item is queued with the limit at zero, and its pwq goes on the pending list. */
  lemma FrozenPending()
    ensures Reached(Small(0, [0], [], Lost(0, Queue(7))))
  {
    FrozenStart();
    FrozenWait();
    Reach(Small(0, [], [], WantNna(0, Queue(7))), Go(0), Small(0, [0], [], Try2(0, Queue(7), true)));
    FrozenAgain();
    Reach(Small(0, [0], [], Try2(0, Queue(7), true)), Go(0), Small(0, [0], [], Try2Max(0, Queue(7), true, 0)));
    FrozenOut();
    Reach(Small(0, [0], [], Try2Max(0, Queue(7), true, 0)), Go(0), Small(0, [0], [], Lost(0, Queue(7))));
  }

  /** It is cancelled, and its pwq stays on that list. */
  lemma FrozenCancelled()
    ensures Reached(Small(0, [0], [], Idle))
  {
    FrozenPending();
    FrozenLost();
    Reach(Small(0, [0], [], Lost(0, Queue(7))), Go(0), Small(0, [0], [7], Idle));
    Reach(Small(0, [0], [7], Idle), Cancel(0, 0), Small(0, [0], [], Idle));
  }

  lemma FrozenStranded()
    ensures Reached(Small(5, [0], [8], Idle))
  {
    FrozenCancelled();
    FrozenThaw();
    Reach(Small(0, [0], [], Idle), SetMax(5), Small(5, [0], [], Idle));
    Reach(Small(5, [0], [], Idle), FillStart(0, 0), Small(5, [0], [], Idle));
    Reach(Small(5, [0], [], Idle), QueueStart(0, 0, 8), Small(5, [0], [8], Idle));
  }

  /**
   An item queued and cancelled while the limit is zero leaves its pwq waiting: after the limit is
   raised and all is filled up, a new item waits for good.
   */
  lemma FreezingStalls() returns (trace: seq<State>, steps: seq<Step>)
    ensures IsRun(trace, steps) && Floor(trace, 0) && Stalled(trace[|trace| - 1]) && trace[|trace| - 1].max == 5
  {
    FrozenStranded();
    trace, steps :| IsRun(trace, steps) && Floor(trace, 0) && trace[|trace| - 1] == Small(5, [0], [8], Idle);
    assert Small(5, [0], [8], Idle).inactive[0] != [];
  }

  /** Runs that keep the limit at or above the floor are free of stalls exactly when the floor is positive. */
  lemma NoStallIff(floor: int)
    ensures floor >= 1 <==>
            forall trace: seq<State>, steps: seq<Step>, i ::
              IsRun(trace, steps) && Floor(trace, floor) && 0 <= i < |trace| ==> !Stalled(trace[i])
  {
    if floor >= 1 {
      forall trace: seq<State>, steps: seq<Step>, i | IsRun(trace, steps) && Floor(trace, floor) && 0 <= i < |trace|
        ensures !Stalled(trace[i])
      {
        if Stalled(trace[i]) {
          var p :| 0 <= p < |trace[i].inactive| && trace[i].inactive[p] != [];
          NoIdleCapacity(trace, steps, floor, i, p);
        }
      }
    } else {
      var trace, steps := FreezingStalls();
      assert Floor(trace, floor);
    }
  }
}
