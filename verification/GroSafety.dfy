/**
 Receive offload over every run: what the buckets keep, what a flush leaves, and that every
 datagram goes up the stack exactly once, in aggregates that can be cut back into what was merged.
 */
module GroSafety {
  import opened GroEngine

  // ---------------------------------------------------------------- held and completed packets

  /** A held packet is made of equal datagrams, and fewer than the most. */
  predicate HeldOk(h: Held, now: nat) {
    && h.gsoSize > 0 && h.len == UDP_HEADER + h.gsoSize && h.age <= now
    && 1 <= |h.merged| == h.count < UDP_GRO_CNT_MAX && h.payload == Concat(h.merged)
    && (forall i :: 0 <= i < |h.merged| ==> |h.merged[i]| == h.gsoSize)
  }

  /** A completed packet may end with one shorter datagram. */
  predicate DoneOk(h: Held) {
    1 <= |h.merged| == h.count <= UDP_GRO_CNT_MAX && Pieces(h.merged, h.gsoSize) && h.payload == Concat(h.merged)
  }

  lemma HeldIsDone(h: Held, now: nat)
    requires HeldOk(h, now)
    ensures DoneOk(h)
  {
  }

  lemma GrownOk(h: Held, p: Packet, now: nat)
    requires HeldOk(h, now) && Wellformed(p) && p.len <= h.len
    ensures DoneOk(Grown(h, p))
    ensures p.len == h.len && h.count + 1 < UDP_GRO_CNT_MAX ==> HeldOk(Grown(h, p), now)
  {
    ConcatAppend(h.merged, p.data);
  }

  lemma NewHeldOk(p: Packet, now: nat)
    requires Wellformed(p)
    ensures HeldOk(NewHeld(p, now), now)
  {
    assert [p.data][1..] == [];
    assert Concat([p.data]) == p.data + [] == p.data;
  }

  // ---------------------------------------------------------------- buckets

  predicate AllHeld(list: seq<Held>, now: nat) { forall i :: 0 <= i < |list| ==> HeldOk(list[i], now) }

  /** Youngest first. */
  predicate Aged(list: seq<Held>) { forall i, j :: 0 <= i < j < |list| ==> list[i].age >= list[j].age }

  predicate OnePerFlow(list: seq<Held>) { forall i, j :: 0 <= i < j < |list| ==> list[i].flow != list[j].flow }

  predicate AllDone(out: seq<Held>) { forall i :: 0 <= i < |out| ==> DoneOk(out[i]) }

  predicate ListOk(list: seq<Held>, now: nat) { AllHeld(list, now) && Aged(list) && OnePerFlow(list) }

  predicate BucketOk(b: Bucket, now: nat) {
    |b.list| == b.count <= MAX_GRO_SKBS && ListOk(b.list, now) && AllDone(b.out)
  }

  lemma RemoveOk(list: seq<Held>, i: nat, now: nat)
    requires ListOk(list, now) && i < |list|
    ensures ListOk(Remove(list, i), now)
    ensures forall j :: 0 <= j < |Remove(list, i)| ==> Remove(list, i)[j].flow != list[i].flow
  {
    var r := Remove(list, i);
    assert forall j :: 0 <= j < |r| ==> r[j] == list[if j < i then j else j + 1];
  }

  lemma CompleteOk(b: Bucket, i: nat, now: nat)
    requires |b.list| == b.count <= MAX_GRO_SKBS && i < |b.list| && AllDone(b.out) && DoneOk(b.list[i])
    requires ListOk(Remove(b.list, i), now)
    ensures BucketOk(Complete(b, i), now)
  {
  }

  /** Growing the packet at index i changes neither its flow nor its age. */
  lemma GrowList(list: seq<Held>, i: nat, h: Held, now: nat)
    requires ListOk(list, now) && i < |list| && h.flow == list[i].flow && h.age == list[i].age
    ensures ListOk(Remove(list[i := h], i), now)
    ensures HeldOk(h, now) ==> ListOk(list[i := h], now)
  {
    assert Remove(list[i := h], i) == Remove(list, i);
    RemoveOk(list, i, now);
  }

  lemma OfferOk(b: Bucket, p: Packet, now: nat)
    requires BucketOk(b, now)
    ensures BucketOk(Offer(b, p).0, now)
    ensures Wellformed(p) && !Offer(b, p).1 ==> forall j :: 0 <= j < |Offer(b, p).0.list| ==>
            Offer(b, p).0.list[j].flow != p.flow
  {
    var i := Match(b.list, p.flow);
    if Wellformed(p) && i < |b.list| {
      var h := b.list[i];
      RemoveOk(b.list, i, now);
      HeldIsDone(h, now);
      if Merges(h, p) {
        GrownOk(h, p, now);
        GrowList(b.list, i, Grown(h, p), now);
        CompleteOk(b.(list := b.list[i := Grown(h, p)]), i, now);
      } else {
        CompleteOk(b, i, now);
      }
    }
  }

  lemma HoldOk(b: Bucket, p: Packet, now: nat)
    requires BucketOk(b, now) && Wellformed(p) && forall j :: 0 <= j < |b.list| ==> b.list[j].flow != p.flow
    ensures BucketOk(Hold(b, p, now), now)
  {
    NewHeldOk(p, now);
    if b.count >= MAX_GRO_SKBS { HeldIsDone(b.list[|b.list| - 1], now); }
  }

  lemma ReceivedOk(b: Bucket, p: Packet, now: nat)
    requires BucketOk(b, now)
    ensures BucketOk(Received(b, p, now), now)
  {
    OfferOk(b, p, now);
    var (b', taken) := Offer(b, p);
    if !taken && Holds(p) { HoldOk(b', p, now); }
  }

  /** A flush empties the bucket, or leaves only packets of this tick. */
  lemma {:induction false} FlushChainOk(b: Bucket, onlyOld: bool, now: nat)
    requires BucketOk(b, now)
    ensures BucketOk(FlushChain(b, onlyOld, now), now)
    ensures !onlyOld ==> FlushChain(b, onlyOld, now).list == []
    ensures forall j :: 0 <= j < |FlushChain(b, onlyOld, now).list| ==> FlushChain(b, onlyOld, now).list[j].age == now
    decreases |b.list|
  {
    if b.list != [] {
      var last := b.list[|b.list| - 1];
      if !(onlyOld && last.age == now) {
        HeldIsDone(last, now);
        FlushChainOk(Bucket(b.list[..|b.list| - 1], b.count - 1, b.out + [last]), onlyOld, now);
      }
    }
  }

  // ---------------------------------------------------------------- datagrams

  function Datagrams(hs: seq<Held>): multiset<Bytes> {
    if hs == [] then multiset{} else multiset(hs[0].merged) + Datagrams(hs[1..])
  }

  lemma {:induction false} DatagramsJoin(a: seq<Held>, b: seq<Held>)
    ensures Datagrams(a + b) == Datagrams(a) + Datagrams(b)
  {
    if a == [] {
      assert a + b == b;
    } else {
      assert (a + b)[1..] == a[1..] + b;
      DatagramsJoin(a[1..], b);
    }
  }

  lemma DatagramsOne(h: Held)
    ensures Datagrams([h]) == multiset(h.merged)
  {
    assert [h][1..] == [];
  }

  /** A bucket's datagrams, held and completed. */
  function InBucket(b: Bucket): multiset<Bytes> { Datagrams(b.list) + Datagrams(b.out) }

  lemma CompleteKeeps(b: Bucket, i: nat)
    requires i < |b.list| && b.count > 0
    ensures InBucket(Complete(b, i)) == InBucket(b)
  {
    var a, h, c := b.list[..i], b.list[i], b.list[i + 1..];
    assert b.list == a + ([h] + c);
    DatagramsJoin(a, [h] + c);
    DatagramsJoin([h], c);
    DatagramsJoin(a, c);
    DatagramsJoin(b.out, [h]);
  }

  lemma GrowKeeps(b: Bucket, i: nat, p: Packet)
    requires i < |b.list|
    ensures InBucket(b.(list := b.list[i := Grown(b.list[i], p)])) == InBucket(b) + multiset{p.data}
  {
    var a, h, c := b.list[..i], b.list[i], b.list[i + 1..];
    assert b.list == a + ([h] + c) && b.list[i := Grown(h, p)] == a + ([Grown(h, p)] + c);
    DatagramsJoin(a, [h] + c);
    DatagramsJoin([h], c);
    DatagramsJoin(a, [Grown(h, p)] + c);
    DatagramsJoin([Grown(h, p)], c);
    DatagramsOne(h);
    DatagramsOne(Grown(h, p));
  }

  lemma OfferKeeps(b: Bucket, p: Packet)
    requires |b.list| == b.count
    ensures InBucket(Offer(b, p).0) == InBucket(b) + if Offer(b, p).1 then multiset{p.data} else multiset{}
  {
    var i := Match(b.list, p.flow);
    if Wellformed(p) && i < |b.list| {
      if Merges(b.list[i], p) {
        GrowKeeps(b, i, p);
        CompleteKeeps(b.(list := b.list[i := Grown(b.list[i], p)]), i);
      } else {
        CompleteKeeps(b, i);
      }
    }
  }

  lemma HoldKeeps(b: Bucket, p: Packet, now: nat)
    ensures InBucket(Hold(b, p, now)) == InBucket(b) + multiset{p.data}
  {
    var h := NewHeld(p, now);
    DatagramsOne(h);
    if b.count >= MAX_GRO_SKBS && b.list != [] {
      var init, last := b.list[..|b.list| - 1], b.list[|b.list| - 1];
      assert b.list == init + [last];
      DatagramsJoin(init, [last]);
      DatagramsJoin([h], init);
      DatagramsJoin(b.out, [last]);
    } else {
      DatagramsJoin([h], b.list);
    }
  }

  /** A packet that is not passed on ends up in its bucket, and nothing is lost from it. */
  lemma ReceivedKeeps(b: Bucket, p: Packet, now: nat)
    requires |b.list| == b.count
    ensures InBucket(Received(b, p, now)) ==
            InBucket(b) + if Offer(b, p).1 || Holds(p) then multiset{p.data} else multiset{}
  {
    OfferKeeps(b, p);
    var (b', taken) := Offer(b, p);
    if !taken && Holds(p) { HoldKeeps(b', p, now); }
  }

  lemma {:induction false} FlushKeeps(b: Bucket, onlyOld: bool, now: nat)
    ensures InBucket(FlushChain(b, onlyOld, now)) == InBucket(b)
    decreases |b.list|
  {
    if b.list != [] && b.count > 0 {
      var init, last := b.list[..|b.list| - 1], b.list[|b.list| - 1];
      if !(onlyOld && last.age == now) {
        assert b.list == init + [last];
        DatagramsJoin(init, [last]);
        DatagramsJoin(b.out, [last]);
        FlushKeeps(Bucket(init, b.count - 1, b.out + [last]), onlyOld, now);
      }
    }
  }

  // ---------------------------------------------------------------- the node

  datatype State = State(g: Gro, now: nat, given: multiset<Bytes>)

  datatype Step = Take(p: Packet) | Flush(onlyOld: bool) | Tick(d: nat)

  function AllHeldDatagrams(lists: seq<seq<Held>>): multiset<Bytes> {
    if lists == [] then multiset{} else Datagrams(lists[0]) + AllHeldDatagrams(lists[1..])
  }

  lemma {:induction false} ListsSplit(lists: seq<seq<Held>>, i: nat)
    requires i < |lists|
    ensures AllHeldDatagrams(lists) == AllHeldDatagrams(lists[i := []]) + Datagrams(lists[i])
  {
    if i == 0 {
      assert lists[0 := []][1..] == lists[1..];
    } else {
      assert lists[i := []][1..] == lists[1..][i - 1 := []];
      ListsSplit(lists[1..], i - 1);
    }
  }

  /** Everything the node has been given and has not lost. */
  function InNode(g: Gro): multiset<Bytes> { AllHeldDatagrams(g.lists) + Datagrams(g.out) + multiset(g.passed) }

  predicate SlotOk(g: Gro, i: nat, now: nat)
    requires Shape(g) && i < GRO_HASH_BUCKETS
  {
    |g.lists[i]| == g.counts[i] <= MAX_GRO_SKBS && (g.bits[i] <==> g.counts[i] != 0) && ListOk(g.lists[i], now)
  }

  predicate NodeOk(g: Gro, now: nat) {
    Shape(g) && (forall i :: 0 <= i < GRO_HASH_BUCKETS ==> SlotOk(g, i, now)) && AllDone(g.out)
  }

  predicate Inv(s: State) { NodeOk(s.g, s.now) && s.given == InNode(s.g) }

  predicate Enabled(s: State, step: Step) { step.Take? ==> step.p.bucket < GRO_HASH_BUCKETS }

  function Apply(s: State, step: Step): State
    requires Enabled(s, step) && Shape(s.g) && forall i :: 0 <= i < GRO_HASH_BUCKETS ==> |s.g.lists[i]| == s.g.counts[i]
  {
    match step
    case Take(p) => State(Receive(s.g, p, s.now), s.now, s.given + multiset{p.data})
    case Flush(onlyOld) => s.(g := FlushFrom(s.g, 0, onlyOld, s.now))
    case Tick(d) => s.(now := s.now + d)
  }

  /** What the node has apart from one bucket and the completed packets. */
  function Others(g: Gro, i: nat): multiset<Bytes>
    requires i < |g.lists|
  {
    AllHeldDatagrams(g.lists[i := []]) + multiset(g.passed)
  }

  lemma NodeSplit(g: Gro, i: nat)
    requires Shape(g) && i < GRO_HASH_BUCKETS
    ensures InNode(g) == Others(g, i) + InBucket(BucketOf(g, i))
  {
    ListsSplit(g.lists, i);
  }

  /** Replacing one bucket by one in order keeps the node in order. */
  lemma WithBucketOk(g: Gro, i: nat, b: Bucket, now: nat)
    requires NodeOk(g, now) && i < GRO_HASH_BUCKETS && BucketOk(b, now)
    ensures NodeOk(WithBucket(g, i, b), now)
  {
    var g' := WithBucket(g, i, b);
    forall k | 0 <= k < GRO_HASH_BUCKETS
      ensures SlotOk(g', k, now)
    {
      assert SlotOk(g, k, now);
    }
  }

  lemma WithBucketHas(g: Gro, i: nat, b: Bucket)
    requires Shape(g) && i < GRO_HASH_BUCKETS
    ensures InNode(WithBucket(g, i, b)) == Others(g, i) + InBucket(b)
  {
    var g' := WithBucket(g, i, b);
    NodeSplit(g', i);
    assert g'.lists[i := []] == g.lists[i := []];
  }

  lemma PassHas(g: Gro, d: Bytes)
    ensures InNode(g.(passed := g.passed + [d])) == InNode(g) + multiset{d}
  {
    assert multiset(g.passed + [d]) == multiset(g.passed) + multiset{d};
  }

  lemma Regroup(a: multiset<Bytes>, b: multiset<Bytes>, c: multiset<Bytes>)
    ensures a + (b + c) == a + b + c
  {
  }

  /** A bucket that gained a datagram is a node that gained it. */
  lemma GainHas(g: Gro, i: nat, b: Bucket, d: multiset<Bytes>)
    requires Shape(g) && i < GRO_HASH_BUCKETS && InBucket(b) == InBucket(BucketOf(g, i)) + d
    ensures InNode(WithBucket(g, i, b)) == InNode(g) + d
  {
    NodeSplit(g, i);
    WithBucketHas(g, i, b);
    Regroup(Others(g, i), InBucket(BucketOf(g, i)), d);
  }

  lemma TakeHas(g: Gro, p: Packet, now: nat)
    requires Shape(g) && p.bucket < GRO_HASH_BUCKETS && |g.lists[p.bucket]| == g.counts[p.bucket]
    ensures InNode(Receive(g, p, now)) == InNode(g) + multiset{p.data}
  {
    var b := BucketOf(g, p.bucket);
    var b' := if p.elide then b else Received(b, p, now);
    if !p.elide { ReceivedKeeps(b, p, now); }
    if Passes(b, p) {
      GainHas(g, p.bucket, b', multiset{});
      PassHas(WithBucket(g, p.bucket, b'), p.data);
    } else {
      GainHas(g, p.bucket, b', multiset{p.data});
    }
  }

  lemma TakeOk(g: Gro, p: Packet, now: nat)
    requires NodeOk(g, now) && p.bucket < GRO_HASH_BUCKETS && |g.lists[p.bucket]| == g.counts[p.bucket]
    ensures NodeOk(Receive(g, p, now), now)
  {
    var b := BucketOf(g, p.bucket);
    assert SlotOk(g, p.bucket, now);
    if !p.elide { ReceivedOk(b, p, now); }
    var g' := WithBucket(g, p.bucket, if p.elide then b else Received(b, p, now));
    WithBucketOk(g, p.bucket, if p.elide then b else Received(b, p, now), now);
    PassedFrame(g', g.passed + [p.data], now);
  }

  /** The order of the buckets does not depend on what was passed on. */
  lemma PassedFrame(g: Gro, passed: seq<Bytes>, now: nat)
    requires NodeOk(g, now)
    ensures NodeOk(g.(passed := passed), now)
  {
    forall k | 0 <= k < GRO_HASH_BUCKETS
      ensures SlotOk(g.(passed := passed), k, now)
    {
      assert SlotOk(g, k, now);
    }
  }

  /** A bucket after a flush. */
  predicate Flushed(g: Gro, i: nat, onlyOld: bool, now: nat)
    requires Shape(g) && i < GRO_HASH_BUCKETS
  {
    (!onlyOld ==> g.lists[i] == [] && !g.bits[i]) && forall j :: 0 <= j < |g.lists[i]| ==> g.lists[i][j].age == now
  }

  /** One bucket of a flush. */
  function FlushOne(g: Gro, i: nat, onlyOld: bool, now: nat): Gro
    requires Shape(g) && i < GRO_HASH_BUCKETS
  {
    if g.bits[i] then WithBucket(g, i, FlushChain(BucketOf(g, i), onlyOld, now)) else g
  }

  lemma FlushOneOk(g: Gro, i: nat, onlyOld: bool, now: nat)
    requires NodeOk(g, now) && i < GRO_HASH_BUCKETS
    ensures NodeOk(FlushOne(g, i, onlyOld, now), now) && Flushed(FlushOne(g, i, onlyOld, now), i, onlyOld, now)
    ensures InNode(FlushOne(g, i, onlyOld, now)) == InNode(g)
  {
    assert SlotOk(g, i, now);
    var b := BucketOf(g, i);
    FlushChainOk(b, onlyOld, now);
    FlushKeeps(b, onlyOld, now);
    NodeSplit(g, i);
    WithBucketHas(g, i, FlushChain(b, onlyOld, now));
    WithBucketOk(g, i, FlushChain(b, onlyOld, now), now);
  }

  /** Buckets below i are left alone. */
  lemma {:induction false} FlushFromBelow(g: Gro, i: nat, onlyOld: bool, now: nat, k: nat)
    requires Shape(g) && k < i <= GRO_HASH_BUCKETS
    ensures var g' := FlushFrom(g, i, onlyOld, now);
            Shape(g') && g'.lists[k] == g.lists[k] && g'.bits[k] == g.bits[k]
    decreases GRO_HASH_BUCKETS - i
  {
    if i < GRO_HASH_BUCKETS { FlushFromBelow(FlushOne(g, i, onlyOld, now), i + 1, onlyOld, now, k); }
  }

  lemma {:induction false} FlushFromKeeps(g: Gro, i: nat, onlyOld: bool, now: nat)
    requires NodeOk(g, now) && i <= GRO_HASH_BUCKETS
    ensures NodeOk(FlushFrom(g, i, onlyOld, now), now) && InNode(FlushFrom(g, i, onlyOld, now)) == InNode(g)
    decreases GRO_HASH_BUCKETS - i
  {
    if i < GRO_HASH_BUCKETS {
      FlushOneOk(g, i, onlyOld, now);
      FlushFromKeeps(FlushOne(g, i, onlyOld, now), i + 1, onlyOld, now);
    }
  }

  lemma {:induction false} FlushFromAll(g: Gro, i: nat, onlyOld: bool, now: nat, k: nat)
    requires NodeOk(g, now) && i <= k < GRO_HASH_BUCKETS
    ensures Shape(FlushFrom(g, i, onlyOld, now)) && Flushed(FlushFrom(g, i, onlyOld, now), k, onlyOld, now)
    decreases GRO_HASH_BUCKETS - i
  {
    var g1 := FlushOne(g, i, onlyOld, now);
    FlushOneOk(g, i, onlyOld, now);
    if i == k {
      FlushFromBelow(g1, i + 1, onlyOld, now, k);
    } else {
      FlushFromAll(g1, i + 1, onlyOld, now, k);
    }
  }

  lemma TickOk(g: Gro, now: nat, later: nat)
    requires NodeOk(g, now) && now <= later
    ensures NodeOk(g, later)
  {
    forall i | 0 <= i < GRO_HASH_BUCKETS
      ensures SlotOk(g, i, later)
    {
      assert SlotOk(g, i, now);
    }
  }

  predicate IsStep(trace: seq<State>, steps: seq<Step>, i: nat)
    requires i < |steps| && |trace| == |steps| + 1
  {
    && Enabled(trace[i], steps[i]) && Shape(trace[i].g)
    && (forall k :: 0 <= k < GRO_HASH_BUCKETS ==> |trace[i].g.lists[k]| == trace[i].g.counts[k])
    && trace[i + 1] == Apply(trace[i], steps[i])
  }

  /** A run of a node that starts empty at any tick. */
  predicate IsRun(trace: seq<State>, steps: seq<Step>) {
    && |trace| == |steps| + 1 && trace[0].g == Empty() && trace[0].given == multiset{}
    && (forall i :: 0 <= i < |steps| ==> IsStep(trace, steps, i))
  }

  lemma EmptyOk(now: nat)
    ensures NodeOk(Empty(), now) && InNode(Empty()) == multiset{}
  {
    NothingHeld(Empty().lists);
  }

  lemma {:induction false} NothingHeld(lists: seq<seq<Held>>)
    requires forall i :: 0 <= i < |lists| ==> lists[i] == []
    ensures AllHeldDatagrams(lists) == multiset{}
  {
    if lists == [] {
    } else {
      NothingHeld(lists[1..]);
    }
  }

  lemma {:induction false} RunInv(trace: seq<State>, steps: seq<Step>, i: nat)
    requires IsRun(trace, steps) && i < |trace|
    ensures Inv(trace[i])
  {
    if i == 0 {
      EmptyOk(trace[0].now);
    } else {
      RunInv(trace, steps, i - 1);
      assert IsStep(trace, steps, i - 1);
      var s := trace[i - 1];
      match steps[i - 1]
      case Take(p) => TakeOk(s.g, p, s.now); TakeHas(s.g, p, s.now);
      case Flush(onlyOld) => FlushFromKeeps(s.g, 0, onlyOld, s.now);
      case Tick(d) => TickOk(s.g, s.now, s.now + d);
    }
  }

  /** The lists are never out of order with their counts: a step is never prevented by that. */
  lemma NeverStuck(trace: seq<State>, steps: seq<Step>, i: nat, k: nat)
    requires IsRun(trace, steps) && i < |trace| && k < GRO_HASH_BUCKETS
    ensures Shape(trace[i].g) && |trace[i].g.lists[k]| == trace[i].g.counts[k]
  {
    RunInv(trace, steps, i);
    assert SlotOk(trace[i].g, k, trace[i].now);
  }

  /** In every bucket of every reachable state: the count, the bit, the ages and the flows are right. */
  lemma BucketsInOrder(trace: seq<State>, steps: seq<Step>, i: nat, k: nat)
    requires IsRun(trace, steps) && i < |trace| && k < GRO_HASH_BUCKETS
    ensures var g := trace[i].g;
            && Shape(g) && g.counts[k] == |g.lists[k]| <= MAX_GRO_SKBS && (g.bits[k] <==> g.lists[k] != [])
            && Aged(g.lists[k]) && OnePerFlow(g.lists[k])
            && (forall j :: 0 <= j < |g.lists[k]| ==> g.lists[k][j].age <= trace[i].now)
  {
    RunInv(trace, steps, i);
    assert SlotOk(trace[i].g, k, trace[i].now);
  }

  /** Every aggregate that went up has at most 64 segments, and cutting it gives back what was merged. */
  lemma CutsBack(trace: seq<State>, steps: seq<Step>, i: nat, j: nat)
    requires IsRun(trace, steps) && i < |trace| && j < |trace[i].g.out|
    ensures var h := trace[i].g.out[j];
            1 <= h.count == |h.merged| <= UDP_GRO_CNT_MAX && Cut(h.payload, h.gsoSize) == h.merged
  {
    RunInv(trace, steps, i);
    var h := trace[i].g.out[j];
    CutUndoesConcat(h.merged, h.gsoSize);
  }

  /** Every datagram given to the node is held, was completed, or was passed on; none twice. */
  lemma NothingLost(trace: seq<State>, steps: seq<Step>, i: nat)
    requires IsRun(trace, steps) && i < |trace|
    ensures var g := trace[i].g;
            trace[i].given == AllHeldDatagrams(g.lists) + Datagrams(g.out) + multiset(g.passed)
  {
    RunInv(trace, steps, i);
  }

  /** A flush of old packets leaves only packets of this tick, and a full flush leaves nothing. */
  lemma FlushLeaves(trace: seq<State>, steps: seq<Step>, i: nat, k: nat)
    requires IsRun(trace, steps) && i < |steps| && steps[i].Flush? && k < GRO_HASH_BUCKETS
    ensures Shape(trace[i + 1].g) && Flushed(trace[i + 1].g, k, steps[i].onlyOld, trace[i].now)
  {
    RunInv(trace, steps, i);
    assert IsStep(trace, steps, i);
    FlushFromAll(trace[i].g, 0, steps[i].onlyOld, trace[i].now, k);
  }
}
