/**
 When receive offload lets go of a packet it holds, and what it has joined by then.  A held packet
 is completed exactly if a datagram of its flow cannot be joined behind it or is its last, if its
 bucket is full and it is the oldest, or if a flush takes it; as long as none of this happens every
 datagram of its flow is joined to it, so that equal datagrams end up in one aggregate.
 */
module GroMerge {
  import opened GroEngine
  import opened GroSafety

  /** The packet ends the aggregate of its flow: shorter or longer, ended by its headers, or the 64th. */
  predicate EndsFlow(h: Held, p: Packet) {
    p.len != h.len || p.netFlush || p.refuse || p.flush || h.count + 1 == 64
  }

  /** The packet pushes out the oldest of eight, being of a flow that is not held. */
  predicate PushesOut(list: seq<Held>, p: Packet, j: nat) {
    !p.flush && |list| == 8 && j == 7 && forall i :: 0 <= i < |list| ==> list[i].flow != p.flow
  }

  /** The packet ends the held packet at index j of its bucket. */
  predicate EndedBy(list: seq<Held>, p: Packet, j: nat)
    requires j < |list|
  {
    !p.elide && Wellformed(p) && if list[j].flow == p.flow then EndsFlow(list[j], p) else PushesOut(list, p, j)
  }

  /** The packet is a datagram of this flow that is offered to what is held of it. */
  predicate OfFlow(p: Packet, k: nat, flow: nat) { !p.elide && Wellformed(p) && p.bucket == k && p.flow == flow }

  /** What a held packet becomes with the packet, if it is not ended. */
  function Joined(h: Held, p: Packet): Held { if !p.elide && Wellformed(p) && h.flow == p.flow then Grown(h, p) else h }

  /** The bucket after the packet. */
  function After(b: Bucket, p: Packet, now: nat): Bucket
    requires |b.list| == b.count
  {
    if p.elide then b else Received(b, p, now)
  }

  /** Something was completed, and it is h or h with the packet joined. */
  predicate Completes(before: seq<Held>, after: seq<Held>, h: Held, p: Packet) {
    |after| == |before| + 1 && (after[|before|] == h || after[|before|] == Grown(h, p))
  }

  lemma MatchOnly(list: seq<Held>, j: nat)
    requires OnePerFlow(list) && j < |list|
    ensures Match(list, list[j].flow) == j
  {
  }

  lemma MatchNone(list: seq<Held>, flow: nat)
    requires Match(list, flow) == |list|
    ensures forall i :: 0 <= i < |list| ==> list[i].flow != flow
  {
  }

  /** A packet of the flow of the held packet at index j. */
  lemma SameFlow(b: Bucket, p: Packet, now: nat, j: nat)
    requires BucketOk(b, now) && j < |b.list| && !p.elide && Wellformed(p) && b.list[j].flow == p.flow
    ensures Completes(b.out, After(b, p, now).out, b.list[j], p) <==> EndsFlow(b.list[j], p)
    ensures !EndsFlow(b.list[j], p) ==> After(b, p, now) == b.(list := b.list[j := Grown(b.list[j], p)])
    ensures EndsFlow(b.list[j], p) && p.len <= b.list[j].len && !p.netFlush && !p.refuse && !p.flush ==>
            After(b, p, now).out == b.out + [Grown(b.list[j], p)]
  {
    MatchOnly(b.list, j);
    assert HeldOk(b.list[j], now);
  }

  lemma RemovedIn(list: seq<Held>, i: nat, j: nat)
    requires i < |list| && j < |list| && i != j
    ensures list[j] in Remove(list, i)
  {
    var r := Remove(list, i);
    assert r[if j < i then j else j - 1] == list[j];
  }

  /** A packet of a flow that is held, seen from another held packet. */
  lemma OtherHeld(b: Bucket, p: Packet, now: nat, i: nat, j: nat)
    requires BucketOk(b, now) && i < |b.list| && j < |b.list| && i != j
    requires !p.elide && Wellformed(p) && b.list[i].flow == p.flow
    ensures !Completes(b.out, After(b, p, now).out, b.list[j], p) && b.list[j] in After(b, p, now).list
  {
    MatchOnly(b.list, i);
    assert b.list[i].flow != b.list[j].flow;
    var h, g := b.list[j], Grown(b.list[i], p);
    RemovedIn(b.list, i, j);
    RemovedIn(b.list[i := g], i, j);
    assert b.list[i := g][j] == h;
    var (b', taken) := Offer(b, p);
    assert h in b'.list;
    if !taken && Holds(p) { HoldKeepsIt(b', p, now, h); }
  }

  /** With room in the bucket nothing is pushed out. */
  lemma HoldKeepsIt(b: Bucket, p: Packet, now: nat, h: Held)
    requires b.count < MAX_GRO_SKBS && h in b.list
    ensures h in Hold(b, p, now).list && Hold(b, p, now).out == b.out
  {
    var j :| 0 <= j < |b.list| && b.list[j] == h;
    assert Hold(b, p, now).list[j + 1] == h;
  }

  /** A packet of a flow that is not held. */
  lemma NewFlow(b: Bucket, p: Packet, now: nat, j: nat)
    requires BucketOk(b, now) && j < |b.list| && !p.elide && Wellformed(p) && Match(b.list, p.flow) == |b.list|
    ensures Completes(b.out, After(b, p, now).out, b.list[j], p) <==> PushesOut(b.list, p, j)
    ensures !PushesOut(b.list, p, j) ==> b.list[j] in After(b, p, now).list
  {
    MatchNone(b.list, p.flow);
    var n := |b.list| - 1;
    if Holds(p) && b.count >= MAX_GRO_SKBS {
      assert After(b, p, now).out == b.out + [b.list[n]];
      if j < n {
        assert b.list[j].flow != b.list[n].flow;
        assert After(b, p, now).list[j + 1] == b.list[j];
      }
    } else if Holds(p) {
      HoldKeepsIt(b, p, now, b.list[j]);
    }
  }

  /** Exactly when a packet ends a held packet of its bucket, and what that is otherwise. */
  lemma TakeEndsIff(b: Bucket, p: Packet, now: nat, j: nat)
    requires BucketOk(b, now) && j < |b.list|
    ensures Completes(b.out, After(b, p, now).out, b.list[j], p) <==> EndedBy(b.list, p, j)
    ensures !EndedBy(b.list, p, j) ==> Joined(b.list[j], p) in After(b, p, now).list
  {
    if !p.elide && Wellformed(p) {
      var i := Match(b.list, p.flow);
      if i == |b.list| {
        MatchNone(b.list, p.flow);
        NewFlow(b, p, now, j);
      } else if i == j {
        SameFlow(b, p, now, j);
        assert b.list[j := Grown(b.list[j], p)][j] == Grown(b.list[j], p);
      } else {
        assert b.list[i].flow != b.list[j].flow;
        OtherHeld(b, p, now, i, j);
      }
    }
  }

  /** A flush takes exactly the packets that are not of this tick, or all. */
  lemma {:induction false} FlushEndsIff(b: Bucket, onlyOld: bool, now: nat, j: nat)
    requires BucketOk(b, now) && j < |b.list|
    ensures b.list[j] in FlushChain(b, onlyOld, now).list <==> onlyOld && b.list[j].age == now
    decreases |b.list|
  {
    var n := |b.list| - 1;
    var last := b.list[n];
    if onlyOld && last.age == now {
      assert j < n ==> b.list[j].age >= last.age;
      assert HeldOk(b.list[j], now);
    } else {
      HeldIsDone(last, now);
      var b' := Bucket(b.list[..n], b.count - 1, b.out + [last]);
      FlushChainOk(b', onlyOld, now);
      if j < n {
        FlushEndsIff(b', onlyOld, now, j);
      } else {
        FlushOnlyTakes(b', onlyOld, now);
        assert forall i :: 0 <= i < n ==> b.list[i].flow != last.flow;
      }
    }
  }

  lemma {:induction false} FlushOnlyTakes(b: Bucket, onlyOld: bool, now: nat)
    ensures forall h :: h in FlushChain(b, onlyOld, now).list ==> h in b.list
    decreases |b.list|
  {
    if b.list == [] || b.count == 0 {
    } else {
      var last := b.list[|b.list| - 1];
      if !(onlyOld && last.age == now) {
        FlushOnlyTakes(Bucket(b.list[..|b.list| - 1], b.count - 1, b.out + [last]), onlyOld, now);
      }
    }
  }

  // ---------------------------------------------------------------- over runs

  /** The step ends the held packet at index j of bucket k. */
  predicate StepEnds(s: State, step: Step, k: nat, j: nat)
    requires k < |s.g.lists| && j < |s.g.lists[k]|
  {
    match step
    case Take(p) => p.bucket == k && EndedBy(s.g.lists[k], p, j)
    case Flush(onlyOld) => !onlyOld || s.g.lists[k][j].age < s.now
    case Tick(_) => false
  }

  /** The step completes the held packet h of bucket k, as it is or with the step's datagram joined. */
  predicate StepCompletes(s: State, t: State, step: Step, k: nat, h: Held)
    requires k < |t.g.lists|
  {
    match step
    case Take(p) => p.bucket == k && Completes(s.g.out, t.g.out, h, p)
    case Flush(_) => h !in t.g.lists[k]
    case Tick(_) => false
  }

  function StepJoins(step: Step, k: nat, h: Held): Held {
    if step.Take? && step.p.bucket == k then Joined(h, step.p) else h
  }

  lemma BucketInOrder(g: Gro, k: nat, now: nat)
    requires NodeOk(g, now) && k < GRO_HASH_BUCKETS
    ensures BucketOk(BucketOf(g, k), now)
  {
    assert SlotOk(g, k, now);
  }

  lemma ReceiveIs(g: Gro, p: Packet, now: nat, k: nat)
    requires NodeOk(g, now) && p.bucket < GRO_HASH_BUCKETS && k < GRO_HASH_BUCKETS
    requires |g.lists[p.bucket]| == g.counts[p.bucket]
    ensures var g' := Receive(g, p, now);
            && |g'.lists| == GRO_HASH_BUCKETS && g'.out == After(BucketOf(g, p.bucket), p, now).out
            && g'.lists[k] == if k == p.bucket then After(BucketOf(g, p.bucket), p, now).list else g.lists[k]
  {
  }

  /** One bucket after a flush of the node. */
  lemma {:induction false} FlushFromIs(g: Gro, i: nat, onlyOld: bool, now: nat, k: nat)
    requires NodeOk(g, now) && i <= k < GRO_HASH_BUCKETS
    ensures var g' := FlushFrom(g, i, onlyOld, now);
            Shape(g') && g'.lists[k] == FlushChain(BucketOf(g, k), onlyOld, now).list
    decreases GRO_HASH_BUCKETS - i
  {
    var g1 := FlushOne(g, i, onlyOld, now);
    FlushOneOk(g, i, onlyOld, now);
    assert SlotOk(g, k, now);
    if i == k {
      FlushFromBelow(g1, i + 1, onlyOld, now, k);
    } else {
      FlushFromIs(g1, i + 1, onlyOld, now, k);
      SameChain(BucketOf(g, k), BucketOf(g1, k), onlyOld, now);
    }
  }

  /** What a chain keeps does not depend on what was completed before. */
  lemma {:induction false} SameChain(a: Bucket, b: Bucket, onlyOld: bool, now: nat)
    requires a.list == b.list && a.count == b.count
    ensures FlushChain(a, onlyOld, now).list == FlushChain(b, onlyOld, now).list
    decreases |a.list|
  {
    if a.list == [] || a.count == 0 {
    } else {
      var n := |a.list| - 1;
      if !(onlyOld && a.list[n].age == now) {
        SameChain(Bucket(a.list[..n], a.count - 1, a.out + [a.list[n]]),
                  Bucket(b.list[..n], b.count - 1, b.out + [b.list[n]]), onlyOld, now);
      }
    }
  }

  /** Exactly when a held packet is completed, in every run; otherwise it is held, with what the step joins to it. */
  lemma EndsIff(trace: seq<State>, steps: seq<Step>, i: nat, k: nat, j: nat)
    requires IsRun(trace, steps) && i < |steps| && k < GRO_HASH_BUCKETS
    requires |trace[i].g.lists| == GRO_HASH_BUCKETS && j < |trace[i].g.lists[k]|
    ensures var (s, t, h) := (trace[i], trace[i + 1], trace[i].g.lists[k][j]);
            && |t.g.lists| == GRO_HASH_BUCKETS
            && (StepCompletes(s, t, steps[i], k, h) <==> StepEnds(s, steps[i], k, j))
            && (!StepEnds(s, steps[i], k, j) ==> StepJoins(steps[i], k, h) in t.g.lists[k])
  {
    var s := trace[i];
    RunInv(trace, steps, i);
    assert IsStep(trace, steps, i);
    BucketInOrder(s.g, k, s.now);
    match steps[i]
    case Take(p) =>
      ReceiveIs(s.g, p, s.now, k);
      if p.bucket == k { TakeEndsIff(BucketOf(s.g, k), p, s.now, j); }
    case Flush(onlyOld) =>
      FlushFromIs(s.g, 0, onlyOld, s.now, k);
      FlushEndsIff(BucketOf(s.g, k), onlyOld, s.now, j);
      assert HeldOk(s.g.lists[k][j], s.now);
    case Tick(_) =>
  }

  // ---------------------------------------------------------------- what is joined

  /** The datagrams of a flow among the steps. */
  function Arrivals(steps: seq<Step>, k: nat, flow: nat): seq<Bytes> {
    if steps == [] then []
    else
      var last := steps[|steps| - 1];
      Arrivals(steps[..|steps| - 1], k, flow) + Arrival(last, k, flow)
  }

  function Arrival(step: Step, k: nat, flow: nat): seq<Bytes> {
    if step.Take? && OfFlow(step.p, k, flow) then [step.p.data] else []
  }

  lemma ArrivalsOne(steps: seq<Step>, i: nat, n: nat, k: nat, flow: nat)
    requires i < n <= |steps|
    ensures Arrivals(steps[i..n], k, flow) == Arrivals(steps[i..n - 1], k, flow) + Arrival(steps[n - 1], k, flow)
  {
    assert steps[i..n][..n - 1 - i] == steps[i..n - 1];
  }

  /** From position i to position n the flow is held and no step ends it. */
  predicate RunsOn(trace: seq<State>, steps: seq<Step>, i: nat, n: nat, k: nat, flow: nat)
    requires |trace| == |steps| + 1 && i <= n <= |steps|
  {
    forall x :: i <= x < n ==> GoesOn(trace[x], steps[x], k, flow)
  }

  predicate GoesOn(s: State, step: Step, k: nat, flow: nat) {
    k < |s.g.lists| && exists j :: 0 <= j < |s.g.lists[k]| && s.g.lists[k][j].flow == flow && !StepEnds(s, step, k, j)
  }

  /** What is held of a flow has joined every datagram of the flow that came since, in order. */
  lemma {:induction false} JoinsAll(trace: seq<State>, steps: seq<Step>, i: nat, n: nat, k: nat, h: Held)
    requires IsRun(trace, steps) && i <= n <= |steps| && k < GRO_HASH_BUCKETS
    requires |trace[i].g.lists| == GRO_HASH_BUCKETS && h in trace[i].g.lists[k]
    requires RunsOn(trace, steps, i, n, k, h.flow)
    ensures |trace[n].g.lists| == GRO_HASH_BUCKETS
    ensures SomeGrown(trace[n].g.lists[k], h, Arrivals(steps[i..n], k, h.flow))
    decreases n - i
  {
    if i == n {
      assert steps[i..n] == [] && h.merged + [] == h.merged && SameFlowGrown(h, h, []);
    } else {
      JoinsAll(trace, steps, i, n - 1, k, h);
      var x :| x in trace[n - 1].g.lists[k] && SameFlowGrown(h, x, Arrivals(steps[i..n - 1], k, h.flow));
      JoinsOne(trace, steps, n - 1, k, x);
      GrownMore(h, x, Arrivals(steps[i..n - 1], k, h.flow), steps[n - 1], k);
      ArrivalsOne(steps, i, n, k, h.flow);
    }
  }

  predicate SomeGrown(list: seq<Held>, h: Held, more: seq<Bytes>) {
    exists x :: x in list && SameFlowGrown(h, x, more)
  }

  lemma GrownMore(h: Held, x: Held, more: seq<Bytes>, step: Step, k: nat)
    requires SameFlowGrown(h, x, more)
    ensures SameFlowGrown(h, StepJoins(step, k, x), more + Arrival(step, k, h.flow))
  {
    assert h.merged + more + Arrival(step, k, h.flow) == h.merged + (more + Arrival(step, k, h.flow));
    assert h.merged + more + [] == h.merged + more;
  }

  predicate SameFlowGrown(h: Held, x: Held, more: seq<Bytes>) {
    x.flow == h.flow && x.len == h.len && x.age == h.age && x.merged == h.merged + more && x.count == h.count + |more|
  }

  lemma JoinsOne(trace: seq<State>, steps: seq<Step>, i: nat, k: nat, x: Held)
    requires IsRun(trace, steps) && i < |steps| && k < GRO_HASH_BUCKETS
    requires |trace[i].g.lists| == GRO_HASH_BUCKETS && x in trace[i].g.lists[k] && GoesOn(trace[i], steps[i], k, x.flow)
    ensures |trace[i + 1].g.lists| == GRO_HASH_BUCKETS && StepJoins(steps[i], k, x) in trace[i + 1].g.lists[k]
  {
    var s := trace[i];
    RunInv(trace, steps, i);
    assert SlotOk(s.g, k, s.now);
    var j :| 0 <= j < |s.g.lists[k]| && s.g.lists[k][j].flow == x.flow && !StepEnds(s, steps[i], k, j);
    assert s.g.lists[k][j] == x;
    EndsIff(trace, steps, i, k, j);
  }

  /** A datagram that is joined without anything of what ends an aggregate. */
  predicate Plain(step: Step, k: nat, flow: nat, len: nat) {
    step.Take? && OfFlow(step.p, k, flow) && step.p.len == len && !step.p.netFlush && !step.p.refuse && !step.p.flush
  }

  lemma {:induction false} PlainArrivals(steps: seq<Step>, k: nat, flow: nat, len: nat)
    requires forall i :: 0 <= i < |steps| ==> Plain(steps[i], k, flow, len)
    ensures |Arrivals(steps, k, flow)| == |steps|
    ensures forall i :: 0 <= i < |steps| ==>
            steps[i].Take? && Arrivals(steps, k, flow)[i] == steps[i].p.data
  {
    if steps == [] {
    } else {
      PlainArrivals(steps[..|steps| - 1], k, flow, len);
    }
  }

  /** The first datagram of a flow that is not held is held alone. */
  lemma FirstIsHeld(trace: seq<State>, steps: seq<Step>, i: nat, k: nat, flow: nat, len: nat)
    requires IsRun(trace, steps) && i < |steps| && k < GRO_HASH_BUCKETS && Plain(steps[i], k, flow, len)
    requires |trace[i].g.lists| == GRO_HASH_BUCKETS
    requires forall j :: 0 <= j < |trace[i].g.lists[k]| ==> trace[i].g.lists[k][j].flow != flow
    ensures |trace[i + 1].g.lists| == GRO_HASH_BUCKETS
    ensures NewHeld(steps[i].p, trace[i].now) in trace[i + 1].g.lists[k]
  {
    var s, p := trace[i], steps[i].p;
    RunInv(trace, steps, i);
    assert IsStep(trace, steps, i);
    ReceiveIs(s.g, p, s.now, k);
    assert Match(s.g.lists[k], flow) == |s.g.lists[k]|;
    assert After(BucketOf(s.g, k), p, s.now).list[0] == NewHeld(p, s.now);
  }

  /** n equal datagrams of a flow in a row, the first of which finds none of its flow held. */
  predicate EqualRow(trace: seq<State>, steps: seq<Step>, i: nat, n: nat, k: nat, flow: nat, len: nat)
    requires |trace| == |steps| + 1
  {
    && i + n <= |steps| && k < GRO_HASH_BUCKETS && |trace[i].g.lists| == GRO_HASH_BUCKETS
    && (forall j :: 0 <= j < |trace[i].g.lists[k]| ==> trace[i].g.lists[k][j].flow != flow)
    && (forall x :: i <= x < i + n ==> Plain(steps[x], k, flow, len))
  }

  /** As long as there are fewer than 64, one aggregate holds them all. */
  lemma {:induction false} EqualHeld(trace: seq<State>, steps: seq<Step>, i: nat, n: nat, k: nat, flow: nat, len: nat)
    requires IsRun(trace, steps) && EqualRow(trace, steps, i, n, k, flow, len) && 1 <= n <= 63
    ensures |trace[i + n].g.lists| == GRO_HASH_BUCKETS
    ensures SomeAggregate(trace[i + n].g.lists[k], steps[i..i + n], k, flow, len)
    decreases n
  {
    if n == 1 {
      FirstIsHeld(trace, steps, i, k, flow, len);
      FirstAggregate(steps, i, k, flow, len, trace[i].now);
    } else {
      EqualHeld(trace, steps, i, n - 1, k, flow, len);
      EqualMore(trace, steps, i, i + n - 1, k, flow, len);
    }
  }

  /** One more of the row. */
  lemma EqualMore(trace: seq<State>, steps: seq<Step>, i: nat, m: nat, k: nat, flow: nat, len: nat)
    requires IsRun(trace, steps) && i <= m < |steps| && k < GRO_HASH_BUCKETS && |trace[m].g.lists| == GRO_HASH_BUCKETS
    requires m - i < 63 && forall x :: i <= x <= m ==> Plain(steps[x], k, flow, len)
    requires SomeAggregate(trace[m].g.lists[k], steps[i..m], k, flow, len)
    ensures |trace[m + 1].g.lists| == GRO_HASH_BUCKETS
    ensures SomeAggregate(trace[m + 1].g.lists[k], steps[i..m + 1], k, flow, len)
  {
    var x :| x in trace[m].g.lists[k] && OneAggregate(x, steps[i..m], k, flow, len);
    PlainArrivals(steps[i..m], k, flow, len);
    EqualJoins(trace, steps, m, k, len, x);
    AggregateGrows(x, steps, i, m, k, flow, len);
  }

  lemma AggregateGrows(x: Held, steps: seq<Step>, i: nat, m: nat, k: nat, flow: nat, len: nat)
    requires i <= m < |steps| && OneAggregate(x, steps[i..m], k, flow, len) && Plain(steps[m], k, flow, len)
    ensures OneAggregate(Grown(x, steps[m].p), steps[i..m + 1], k, flow, len)
  {
    ArrivalsOne(steps, i, m + 1, k, flow);
  }

  lemma FirstAggregate(steps: seq<Step>, i: nat, k: nat, flow: nat, len: nat, now: nat)
    requires i < |steps| && Plain(steps[i], k, flow, len)
    ensures OneAggregate(NewHeld(steps[i].p, now), steps[i..i + 1], k, flow, len)
  {
    ArrivalsOne(steps, i, i + 1, k, flow);
    assert steps[i..i] == [] && [] + [steps[i].p.data] == [steps[i].p.data];
  }

  predicate OneAggregate(x: Held, steps: seq<Step>, k: nat, flow: nat, len: nat) {
    x.flow == flow && x.len == len && x.merged == Arrivals(steps, k, flow) && x.count == |x.merged|
  }

  predicate SomeAggregate(list: seq<Held>, steps: seq<Step>, k: nat, flow: nat, len: nat) {
    exists x :: x in list && OneAggregate(x, steps, k, flow, len)
  }

  lemma EqualJoins(trace: seq<State>, steps: seq<Step>, i: nat, k: nat, len: nat, x: Held)
    requires IsRun(trace, steps) && i < |steps| && k < GRO_HASH_BUCKETS && |trace[i].g.lists| == GRO_HASH_BUCKETS
    requires x in trace[i].g.lists[k] && x.len == len && x.count < 63 && Plain(steps[i], k, x.flow, len)
    ensures |trace[i + 1].g.lists| == GRO_HASH_BUCKETS && Grown(x, steps[i].p) in trace[i + 1].g.lists[k]
  {
    var j :| 0 <= j < |trace[i].g.lists[k]| && trace[i].g.lists[k][j] == x;
    EndsIff(trace, steps, i, k, j);
  }

  /** The 64th completes it. */
  lemma EqualCompletes(trace: seq<State>, steps: seq<Step>, i: nat, k: nat, flow: nat, len: nat)
    requires IsRun(trace, steps) && EqualRow(trace, steps, i, 64, k, flow, len)
    ensures var out := trace[i + 64].g.out;
            && |out| == |trace[i + 63].g.out| + 1
            && out[|out| - 1].merged == Arrivals(steps[i..i + 64], k, flow) && out[|out| - 1].count == 64
  {
    EqualHeld(trace, steps, i, 63, k, flow, len);
    var x :| x in trace[i + 63].g.lists[k] && OneAggregate(x, steps[i..i + 63], k, flow, len);
    PlainArrivals(steps[i..i + 63], k, flow, len);
    ArrivalsOne(steps, i, i + 64, k, flow);
    LastJoins(trace, steps, i + 63, k, len, x);
  }

  lemma LastJoins(trace: seq<State>, steps: seq<Step>, i: nat, k: nat, len: nat, x: Held)
    requires IsRun(trace, steps) && i < |steps| && k < GRO_HASH_BUCKETS && |trace[i].g.lists| == GRO_HASH_BUCKETS
    requires x in trace[i].g.lists[k] && x.len == len && x.count == 63 && Plain(steps[i], k, x.flow, len)
    ensures trace[i + 1].g.out == trace[i].g.out + [Grown(x, steps[i].p)]
  {
    var s, p := trace[i], steps[i].p;
    var j :| 0 <= j < |s.g.lists[k]| && s.g.lists[k][j] == x;
    RunInv(trace, steps, i);
    assert IsStep(trace, steps, i);
    BucketInOrder(s.g, k, s.now);
    ReceiveIs(s.g, p, s.now, k);
    SameFlow(BucketOf(s.g, k), p, s.now, j);
  }
}
