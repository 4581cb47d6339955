/**
 The order in which the datagrams of one flow go up the stack.  A datagram that is merged or held
 keeps its place, and one that ends an aggregate is preceded by it; but one that is not looked at
 passes whatever is held of its flow.  Flows hash to buckets, so that a flow is in one bucket.
 */
module GroOrder {
  import opened GroEngine
  import opened GroSafety

  /** The datagrams of a flow in a list of aggregates, in order. */
  function OfFlow(hs: seq<Held>, f: nat): seq<Bytes> {
    if hs == [] then [] else (if hs[0].flow == f then hs[0].merged else []) + OfFlow(hs[1..], f)
  }

  lemma {:induction false} OfFlowJoin(a: seq<Held>, b: seq<Held>, f: nat)
    ensures OfFlow(a + b, f) == OfFlow(a, f) + OfFlow(b, f)
  {
    if a == [] {
      assert a + b == b && [] + OfFlow(b, f) == OfFlow(b, f);
    } else {
      assert (a + b)[1..] == a[1..] + b;
      OfFlowJoin(a[1..], b, f);
    }
  }

  lemma {:induction false} OfFlowNone(hs: seq<Held>, f: nat)
    requires forall i :: 0 <= i < |hs| ==> hs[i].flow != f
    ensures OfFlow(hs, f) == []
  {
    if hs == [] {
    } else {
      OfFlowNone(hs[1..], f);
    }
  }

  lemma OfFlowOne(h: Held, f: nat)
    ensures OfFlow([h], f) == if h.flow == f then h.merged else []
  {
    assert [h][1..] == [] && OfFlow([], f) == [];
    assert h.merged + [] == h.merged;
  }

  /** Of a flow there is at most one aggregate in a list. */
  lemma Around(list: seq<Held>, i: nat, f: nat)
    requires OnePerFlow(list) && i < |list|
    ensures OfFlow(list, f)
            == OfFlow(list[..i], f) + (if list[i].flow == f then list[i].merged else []) + OfFlow(list[i + 1..], f)
    ensures list[i].flow == f ==> OfFlow(list[..i], f) == [] && OfFlow(list[i + 1..], f) == []
  {
    var a, c := list[..i], list[i + 1..];
    assert list == a + ([list[i]] + c);
    OfFlowJoin(a, [list[i]] + c, f);
    OfFlowJoin([list[i]], c, f);
    OfFlowOne(list[i], f);
    if list[i].flow == f {
      OfFlowNone(a, f);
      OfFlowNone(c, f);
    }
  }

  // ---------------------------------------------------------------- one bucket

  /** What went up of the flow, then what is held of it: what was held before, then more. */
  predicate Moves(b: Bucket, b': Bucket, f: nat, more: seq<Bytes>) {
    && |b.out| <= |b'.out| && b'.out[..|b.out|] == b.out
    && OfFlow(b'.out[|b.out|..], f) + OfFlow(b'.list, f) == OfFlow(b.list, f) + more
  }

  lemma Stays(b: Bucket, f: nat)
    ensures Moves(b, b, f, [])
  {
    assert b.out[|b.out|..] == [] && OfFlow([], f) == [];
  }

  lemma Then(b: Bucket, b1: Bucket, b2: Bucket, f: nat, d: seq<Bytes>, e: seq<Bytes>)
    requires Moves(b, b1, f, d) && Moves(b1, b2, f, e)
    ensures Moves(b, b2, f, d + e)
  {
    var x, y := b1.out[|b.out|..], b2.out[|b1.out|..];
    assert b2.out == b1.out + y && b1.out == b.out + x;
    assert b2.out[|b.out|..] == x + y && b2.out[..|b.out|] == b.out;
    OfFlowJoin(x, y, f);
    Rebracket(OfFlow(x, f), OfFlow(y, f), OfFlow(b2.list, f), OfFlow(b1.list, f), OfFlow(b.list, f), d, e);
  }

  lemma Rebracket(x: seq<Bytes>, y: seq<Bytes>, h2: seq<Bytes>, h1: seq<Bytes>, h: seq<Bytes>, d: seq<Bytes>,
                  e: seq<Bytes>)
    requires x + h1 == h + d && y + h2 == h1 + e
    ensures x + y + h2 == h + (d + e)
  {
    assert x + y + h2 == x + (y + h2) == (x + h1) + e;
  }

  /** Completing the aggregate at index i. */
  lemma CompleteMoves(b: Bucket, i: nat, f: nat)
    requires OnePerFlow(b.list) && i < |b.list| && b.count > 0
    ensures Moves(b, Complete(b, i), f, [])
    ensures b.list[i].flow == f ==> OfFlow(Complete(b, i).list, f) == []
  {
    var a, h, c := b.list[..i], b.list[i], b.list[i + 1..];
    Around(b.list, i, f);
    OfFlowJoin(a, c, f);
    OfFlowOne(h, f);
    assert (b.out + [h])[|b.out|..] == [h];
  }

  lemma GrowMoves(b: Bucket, i: nat, p: Packet, f: nat)
    requires OnePerFlow(b.list) && i < |b.list| && b.list[i].flow == p.flow
    ensures var b' := b.(list := b.list[i := Grown(b.list[i], p)]);
            OnePerFlow(b'.list) && Moves(b, b', f, if f == p.flow then [p.data] else [])
  {
    var list' := b.list[i := Grown(b.list[i], p)];
    Around(b.list, i, f);
    Around(list', i, f);
    assert list'[..i] == b.list[..i] && list'[i + 1..] == b.list[i + 1..];
    assert b.out[|b.out|..] == [] && OfFlow([], f) == [];
  }

  lemma OfferMoves(b: Bucket, p: Packet, f: nat)
    requires |b.list| == b.count && OnePerFlow(b.list)
    ensures Moves(b, Offer(b, p).0, f, if f == p.flow && Offer(b, p).1 then [p.data] else [])
    ensures Wellformed(p) && !Offer(b, p).1 ==> OfFlow(Offer(b, p).0.list, p.flow) == []
  {
    var i := Match(b.list, p.flow);
    Stays(b, f);
    if i == |b.list| {
      OfFlowNone(b.list, p.flow);
    } else if Wellformed(p) {
      CompleteMoves(b, i, f);
      CompleteMoves(b, i, p.flow);
      if Merges(b.list[i], p) {
        GrowMoves(b, i, p, f);
        var b1, d := b.(list := b.list[i := Grown(b.list[i], p)]), if f == p.flow then [p.data] else [];
        CompleteMoves(b1, i, f);
        Then(b, b1, Complete(b1, i), f, d, []);
        assert d + [] == d;
      }
    }
  }

  /** The oldest aggregate goes up. */
  lemma OldestMoves(b: Bucket, b': Bucket, f: nat)
    requires OnePerFlow(b.list) && b.list != []
    requires b'.list == b.list[..|b.list| - 1] && b'.out == b.out + [b.list[|b.list| - 1]]
    ensures Moves(b, b', f, []) && OnePerFlow(b'.list)
  {
    var n := |b.list| - 1;
    Around(b.list, n, f);
    OfFlowOne(b.list[n], f);
    assert b.list[n + 1..] == [] && OfFlow([], f) == [];
    assert b'.out[|b.out|..] == [b.list[n]];
  }

  lemma HoldMoves(b: Bucket, p: Packet, now: nat, f: nat)
    requires OnePerFlow(b.list) && OfFlow(b.list, p.flow) == []
    requires forall j :: 0 <= j < |b.list| ==> b.list[j].flow != p.flow
    ensures Moves(b, Hold(b, p, now), f, if f == p.flow then [p.data] else [])
  {
    var h, d := NewHeld(p, now), if f == p.flow then [p.data] else [];
    var init := if b.count >= MAX_GRO_SKBS && b.list != [] then b.list[..|b.list| - 1] else b.list;
    var b1 := if b.count >= MAX_GRO_SKBS && b.list != [] then Bucket(init, b.count, b.out + [b.list[|b.list| - 1]])
      else b;
    if b.count >= MAX_GRO_SKBS && b.list != [] { OldestMoves(b, b1, f); } else { Stays(b, f); }
    var b2 := Hold(b, p, now);
    OfFlowJoin([h], init, f);
    OfFlowOne(h, f);
    if f == p.flow { OfFlowNone(init, f); }
    assert b2.out[|b1.out|..] == [] && OfFlow([], f) == [];
    assert Moves(b1, b2, f, d);
    Then(b, b1, b2, f, [], d);
    assert [] + d == d;
  }

  lemma ReceivedMoves(b: Bucket, p: Packet, now: nat, f: nat)
    requires BucketOk(b, now)
    ensures Moves(b, Received(b, p, now), f, if f == p.flow && (Offer(b, p).1 || Holds(p)) then [p.data] else [])
    ensures Wellformed(p) && !Offer(b, p).1 && !Holds(p) ==> OfFlow(Received(b, p, now).list, p.flow) == []
  {
    OfferOk(b, p, now);
    OfferMoves(b, p, f);
    var (b', taken) := Offer(b, p);
    if !taken && Holds(p) {
      HoldMoves(b', p, now, f);
      var d := if f == p.flow then [p.data] else [];
      Then(b, b', Hold(b', p, now), f, [], d);
      assert [] + d == d;
    }
  }

  lemma {:induction false} FlushMoves(b: Bucket, onlyOld: bool, now: nat, f: nat)
    requires OnePerFlow(b.list)
    ensures Moves(b, FlushChain(b, onlyOld, now), f, [])
    decreases |b.list|
  {
    Stays(b, f);
    if b.list == [] || b.count == 0 {
    } else {
      var n := |b.list| - 1;
      var b1 := Bucket(b.list[..n], b.count - 1, b.out + [b.list[n]]);
      if !(onlyOld && b.list[n].age == now) {
        OldestMoves(b, b1, f);
        FlushMoves(b1, onlyOld, now, f);
        Then(b, b1, FlushChain(b1, onlyOld, now), f, [], []);
      }
    }
  }

  // ---------------------------------------------------------------- the node

  function HeldOf(g: Gro, home: nat, f: nat): seq<Bytes>
    requires Shape(g) && home < GRO_HASH_BUCKETS
  {
    OfFlow(g.lists[home], f)
  }

  /** The flow is in no other bucket than its home. */
  predicate Housed(g: Gro, home: nat, f: nat)
    requires Shape(g)
  {
    forall k :: 0 <= k < GRO_HASH_BUCKETS && k != home ==> OfFlow(g.lists[k], f) == []
  }

  predicate NodeMoves(g: Gro, g': Gro, home: nat, f: nat, more: seq<Bytes>)
    requires Shape(g) && Shape(g') && home < GRO_HASH_BUCKETS
  {
    && |g.out| <= |g'.out| && g'.out[..|g.out|] == g.out
    && OfFlow(g'.out[|g.out|..], f) + HeldOf(g', home, f) == HeldOf(g, home, f) + more
  }

  /** What happens to one bucket is what happens to the node. */
  lemma BucketMoves(g: Gro, k: nat, b: Bucket, home: nat, f: nat, more: seq<Bytes>)
    requires Shape(g) && k < GRO_HASH_BUCKETS && home < GRO_HASH_BUCKETS && Housed(g, home, f)
    requires Moves(BucketOf(g, k), b, f, more) && (k != home ==> more == [])
    ensures NodeMoves(g, WithBucket(g, k, b), home, f, more) && Housed(WithBucket(g, k, b), home, f)
  {
    var g' := WithBucket(g, k, b);
    if k != home {
      assert OfFlow(b.out[|g.out|..], f) + OfFlow(b.list, f) == [];
      assert g'.lists[home] == g.lists[home];
    }
  }

  lemma NodeThen(g: Gro, g1: Gro, g2: Gro, home: nat, f: nat)
    requires Shape(g) && Shape(g1) && Shape(g2) && home < GRO_HASH_BUCKETS && NodeMoves(g, g1, home, f, [])
    requires NodeMoves(g1, g2, home, f, [])
    ensures NodeMoves(g, g2, home, f, [])
  {
    Then(BucketOf(g, home), BucketOf(g1, home), BucketOf(g2, home), f, [], []);
  }

  lemma FlushOneMoves(g: Gro, i: nat, onlyOld: bool, now: nat, home: nat, f: nat)
    requires NodeOk(g, now) && i < GRO_HASH_BUCKETS && home < GRO_HASH_BUCKETS && Housed(g, home, f)
    ensures Shape(FlushOne(g, i, onlyOld, now))
    ensures NodeMoves(g, FlushOne(g, i, onlyOld, now), home, f, []) && Housed(FlushOne(g, i, onlyOld, now), home, f)
  {
    assert SlotOk(g, i, now);
    Stays(BucketOf(g, home), f);
    FlushMoves(BucketOf(g, i), onlyOld, now, f);
    BucketMoves(g, i, FlushChain(BucketOf(g, i), onlyOld, now), home, f, []);
  }

  lemma {:induction false} FlushFromMoves(g: Gro, i: nat, onlyOld: bool, now: nat, home: nat, f: nat)
    requires NodeOk(g, now) && i <= GRO_HASH_BUCKETS && home < GRO_HASH_BUCKETS && Housed(g, home, f)
    ensures Shape(FlushFrom(g, i, onlyOld, now))
    ensures NodeMoves(g, FlushFrom(g, i, onlyOld, now), home, f, []) && Housed(FlushFrom(g, i, onlyOld, now), home, f)
    decreases GRO_HASH_BUCKETS - i
  {
    if i == GRO_HASH_BUCKETS {
      Stays(BucketOf(g, home), f);
    } else {
      var g1 := FlushOne(g, i, onlyOld, now);
      FlushOneOk(g, i, onlyOld, now);
      FlushOneMoves(g, i, onlyOld, now, home, f);
      FlushFromMoves(g1, i + 1, onlyOld, now, home, f);
      NodeThen(g, g1, FlushFrom(g1, i + 1, onlyOld, now), home, f);
    }
  }

  // ---------------------------------------------------------------- runs

  /** What goes up the stack: an aggregate, or a packet as it came. */
  datatype Up = Aggregate(h: Held) | AsItCame(p: Packet)

  function UpOf(log: seq<Up>, f: nat): seq<Bytes> {
    if log == [] then []
    else
      var last := log[|log| - 1];
      UpOf(log[..|log| - 1], f)
      + if last.Aggregate? then (if last.h.flow == f then last.h.merged else [])
        else if last.p.flow == f then [last.p.data] else []
  }

  function Aggregates(hs: seq<Held>): seq<Up> { seq(|hs|, i requires 0 <= i < |hs| => Aggregate(hs[i])) }

  predicate PassesOn(s: State, p: Packet) {
    && Shape(s.g) && p.bucket < GRO_HASH_BUCKETS && |s.g.lists[p.bucket]| == s.g.counts[p.bucket]
    && Passes(BucketOf(s.g, p.bucket), p)
  }

  /** What one step sends up: the aggregates it completes, then the packet itself. */
  function SentUp(s: State, step: Step, s': State): seq<Up> {
    (if |s.g.out| <= |s'.g.out| then Aggregates(s'.g.out[|s.g.out|..]) else [])
    + if step.Take? && PassesOn(s, step.p) then [AsItCame(step.p)] else []
  }

  /** Everything that went up in the first n steps, in order. */
  function Log(trace: seq<State>, steps: seq<Step>, n: nat): seq<Up>
    requires n <= |steps| < |trace|
  {
    if n == 0 then [] else Log(trace, steps, n - 1) + SentUp(trace[n - 1], steps[n - 1], trace[n])
  }

  /** The datagrams of the flow that were given to the node, in order. */
  function GivenOf(steps: seq<Step>, f: nat): seq<Bytes> {
    if steps == [] then []
    else
      var last := steps[|steps| - 1];
      GivenOf(steps[..|steps| - 1], f) + if last.Take? && last.p.flow == f then [last.p.data] else []
  }

  lemma {:induction false} UpOfJoin(a: seq<Up>, b: seq<Up>, f: nat)
    ensures UpOf(a + b, f) == UpOf(a, f) + UpOf(b, f)
  {
    if b == [] {
      assert a + b == a && UpOf(a, f) + [] == UpOf(a, f);
    } else {
      assert (a + b)[..|a + b| - 1] == a + b[..|b| - 1];
      UpOfJoin(a, b[..|b| - 1], f);
    }
  }

  lemma {:induction false} UpOfAggregates(hs: seq<Held>, f: nat)
    ensures UpOf(Aggregates(hs), f) == OfFlow(hs, f)
  {
    if hs == [] {
    } else {
      var n := |hs| - 1;
      assert Aggregates(hs)[..n] == Aggregates(hs[..n]) && Aggregates(hs)[n] == Aggregate(hs[n]);
      UpOfAggregates(hs[..n], f);
      assert hs == hs[..n] + [hs[n]];
      OfFlowJoin(hs[..n], [hs[n]], f);
      OfFlowOne(hs[n], f);
    }
  }

  lemma UpOfOne(p: Packet, f: nat)
    ensures UpOf([AsItCame(p)], f) == if p.flow == f then [p.data] else []
  {
    assert [AsItCame(p)][..0] == [] && UpOf([], f) == [];
  }

  /** What went up of a flow in one step. */
  lemma SentOf(s: State, step: Step, s': State, f: nat)
    requires |s.g.out| <= |s'.g.out|
    ensures UpOf(SentUp(s, step, s'), f)
            == OfFlow(s'.g.out[|s.g.out|..], f)
               + if step.Take? && PassesOn(s, step.p) && step.p.flow == f then [step.p.data] else []
  {
    var a := Aggregates(s'.g.out[|s.g.out|..]);
    UpOfAggregates(s'.g.out[|s.g.out|..], f);
    if step.Take? && PassesOn(s, step.p) {
      UpOfJoin(a, [AsItCame(step.p)], f);
      UpOfOne(step.p, f);
    } else {
      assert a + [] == a;
    }
  }

  type BucketNr = k: nat | k < GRO_HASH_BUCKETS

  /** Packets of one flow hash alike: the flow decides the bucket. */
  predicate Hashed(steps: seq<Step>, home: nat -> BucketNr) {
    forall i :: 0 <= i < |steps| && steps[i].Take? ==> steps[i].p.bucket == home(steps[i].p.flow)
  }

  /** What went up of the flow, then what is held of it, is what was given, in order. */
  predicate InOrder(trace: seq<State>, steps: seq<Step>, home: nat -> BucketNr, n: nat, f: nat)
    requires n <= |steps| < |trace| && Shape(trace[n].g)
  {
    UpOf(Log(trace, steps, n), f) + HeldOf(trace[n].g, home(f), f) == GivenOf(steps[..n], f)
  }

  predicate OrderedAt(trace: seq<State>, steps: seq<Step>, home: nat -> BucketNr, n: nat, f: nat)
    requires |trace| == |steps| + 1 && n <= |steps|
  {
    Shape(trace[n].g) && InOrder(trace, steps, home, n, f)
  }

  /** The packet is not offered to what is held: offload is off for it, or its checksum or length is not right. */
  predicate Bypasses(p: Packet) { p.elide || !Wellformed(p) }

  /** The packet passes a datagram of its flow that is held, and can be told from it. */
  predicate Overtakes(s: State, home: nat -> BucketNr, step: Step)
    requires Shape(s.g)
  {
    step.Take? && Bypasses(step.p) && exists d :: d in HeldOf(s.g, home(step.p.flow), step.p.flow) && d != step.p.data
  }

  lemma {:induction false} AllSame(h: seq<Bytes>, d: Bytes, i: nat)
    requires [d] + h == h + [d] && i < |h|
    ensures h[i] == d
  {
    if i == 0 {
      assert ([d] + h)[0] == (h + [d])[0];
    } else {
      AllSame(h, d, i - 1);
      assert ([d] + h)[i] == (h + [d])[i];
    }
  }

  lemma SwapIff(h: seq<Bytes>, d: Bytes)
    ensures [d] + h == h + [d] <==> forall x :: x in h ==> x == d
  {
    if [d] + h == h + [d] {
      forall x | x in h
        ensures x == d
      {
        var i :| 0 <= i < |h| && h[i] == x;
        AllSame(h, d, i);
      }
    }
    if forall x :: x in h ==> x == d {
      forall i | 0 <= i <= |h|
        ensures ([d] + h)[i] == (h + [d])[i]
      {
        assert i < |h| ==> h[i] in h;
        assert i > 0 ==> h[i - 1] in h;
      }
    }
  }

  /** One packet, and what of its flow and any other goes up and is held afterwards. */
  lemma TakeMoves(s: State, p: Packet, home: nat, f: nat)
    requires NodeOk(s.g, s.now) && p.bucket < GRO_HASH_BUCKETS && home < GRO_HASH_BUCKETS
    requires (f == p.flow ==> home == p.bucket)
    requires Housed(s.g, home, f) && |s.g.lists[p.bucket]| == s.g.counts[p.bucket]
    ensures var g' := Receive(s.g, p, s.now);
            && Shape(g') && Housed(g', home, f)
            && NodeMoves(s.g, g', home, f, if f == p.flow && !PassesOn(s, p) then [p.data] else [])
  {
    var k := p.bucket;
    var b := BucketOf(s.g, k);
    assert SlotOk(s.g, k, s.now);
    Stays(b, f);
    if !p.elide { ReceivedMoves(b, p, s.now, f); }
    var b' := if p.elide then b else Received(b, p, s.now);
    var more := if f == p.flow && !PassesOn(s, p) then [p.data] else [];
    BucketMoves(s.g, k, b', home, f, more);
  }

  /** A packet that is passed on although it was looked at finds nothing of its flow held any more. */
  lemma PassedAlone(s: State, p: Packet)
    requires NodeOk(s.g, s.now) && PassesOn(s, p) && !Bypasses(p)
    ensures Shape(Receive(s.g, p, s.now)) && HeldOf(Receive(s.g, p, s.now), p.bucket, p.flow) == []
  {
    assert SlotOk(s.g, p.bucket, s.now);
    ReceivedMoves(BucketOf(s.g, p.bucket), p, s.now, p.flow);
  }

  lemma BypassPasses(s: State, p: Packet)
    requires Shape(s.g) && p.bucket < GRO_HASH_BUCKETS && |s.g.lists[p.bucket]| == s.g.counts[p.bucket]
    ensures Bypasses(p) ==> PassesOn(s, p)
  {
  }

  lemma BypassLeaves(s: State, p: Packet)
    requires Shape(s.g) && PassesOn(s, p) && Bypasses(p)
    ensures Receive(s.g, p, s.now).out == s.g.out && Receive(s.g, p, s.now).lists == s.g.lists
  {
    var b := BucketOf(s.g, p.bucket);
    assert (if p.elide then b else Received(b, p, s.now)) == b;
    assert s.g.lists[p.bucket := b.list] == s.g.lists;
  }

  lemma StepMoves(s: State, step: Step, home: nat, f: nat)
    requires NodeOk(s.g, s.now) && home < GRO_HASH_BUCKETS && (step.Take? && step.p.flow == f ==> home == step.p.bucket)
    requires Housed(s.g, home, f)
    requires Enabled(s, step) && forall k :: 0 <= k < GRO_HASH_BUCKETS ==> |s.g.lists[k]| == s.g.counts[k]
    ensures var g' := Apply(s, step).g;
            && Shape(g') && Housed(g', home, f)
            && NodeMoves(s.g, g', home, f,
                         if step.Take? && f == step.p.flow && !PassesOn(s, step.p) then [step.p.data] else [])
  {
    match step
    case Take(p) => TakeMoves(s, p, home, f);
    case Flush(onlyOld) => FlushFromMoves(s.g, 0, onlyOld, s.now, home, f);
    case Tick(_) => Stays(BucketOf(s.g, home), f);
  }

  lemma EmptyHoused(k: BucketNr, f: nat)
    ensures Shape(Empty()) && Housed(Empty(), k, f) && HeldOf(Empty(), k, f) == []
  {
  }

  lemma {:induction false} AlwaysHoused(trace: seq<State>, steps: seq<Step>, home: nat -> BucketNr, n: nat, f: nat)
    requires IsRun(trace, steps) && Hashed(steps, home) && n < |trace|
    ensures NodeOk(trace[n].g, trace[n].now) && Housed(trace[n].g, home(f), f)
  {
    RunInv(trace, steps, n);
    if n == 0 {
      EmptyHoused(home(f), f);
    } else {
      AlwaysHoused(trace, steps, home, n - 1, f);
      assert IsStep(trace, steps, n - 1);
      StepMoves(trace[n - 1], steps[n - 1], home(f), f);
    }
  }

  /** One step on values: the flow stays in order exactly if nothing of it that can be told apart is overtaken. */
  lemma Balance(up: seq<Bytes>, held: seq<Bytes>, given: seq<Bytes>, sent: seq<Bytes>, held': seq<Bytes>,
                more: seq<Bytes>)
    requires up + held == given && sent + held' == held + more
    ensures up + sent + held' == given + more
  {
    assert up + sent + held' == up + (sent + held') == (up + held) + more;
  }

  /** What the packet of a step adds to a flow, if it is of that flow. */
  function Added(step: Step, f: nat): seq<Bytes> { if step.Take? && step.p.flow == f then [step.p.data] else [] }

  function PassedOn(s: State, step: Step, f: nat): seq<Bytes> {
    if step.Take? && PassesOn(s, step.p) && step.p.flow == f then [step.p.data] else []
  }

  /** What a step does to a flow whose home is bucket k. */
  predicate FlowStep(s: State, step: Step, s': State, k: BucketNr, f: nat) {
    && NodeOk(s.g, s.now) && Shape(s'.g) && (step.Take? && step.p.flow == f ==> step.p.bucket == k)
    && NodeMoves(s.g, s'.g, k, f, if PassedOn(s, step, f) == [] then Added(step, f) else [])
    && (step.Take? && PassesOn(s, step.p) ==> s'.g == Receive(s.g, step.p, s.now))
    && (step.Take? && Bypasses(step.p) ==> PassesOn(s, step.p))
  }

  lemma RunMoves(trace: seq<State>, steps: seq<Step>, home: nat -> BucketNr, n: nat, f: nat)
    requires IsRun(trace, steps) && Hashed(steps, home) && n < |steps|
    ensures FlowStep(trace[n], steps[n], trace[n + 1], home(f), f)
  {
    AlwaysHoused(trace, steps, home, n, f);
    assert IsStep(trace, steps, n);
    StepMoves(trace[n], steps[n], home(f), f);
    if steps[n].Take? { BypassPasses(trace[n], steps[n].p); }
  }

  lemma UpStep(log: seq<Up>, s: State, step: Step, s': State, f: nat)
    requires |s.g.out| <= |s'.g.out|
    ensures UpOf(log + SentUp(s, step, s'), f)
            == UpOf(log, f) + (OfFlow(s'.g.out[|s.g.out|..], f) + PassedOn(s, step, f))
  {
    SentOf(s, step, s', f);
    UpOfJoin(log, SentUp(s, step, s'), f);
  }

  lemma {:induction false} GivenStep(steps: seq<Step>, n: nat, f: nat)
    requires n < |steps|
    ensures GivenOf(steps[..n + 1], f) == GivenOf(steps[..n], f) + Added(steps[n], f)
  {
    var part := steps[..n + 1];
    assert |part| == n + 1 && part[..n] == steps[..n] && part[n] == steps[n];
  }

  lemma {:induction false} LogStep(trace: seq<State>, steps: seq<Step>, n: nat, f: nat)
    requires n < |steps| < |trace| && |trace[n].g.out| <= |trace[n + 1].g.out|
    ensures UpOf(Log(trace, steps, n + 1), f)
            == UpOf(Log(trace, steps, n), f)
               + (OfFlow(trace[n + 1].g.out[|trace[n].g.out|..], f) + PassedOn(trace[n], steps[n], f))
  {
    UpStep(Log(trace, steps, n), trace[n], steps[n], trace[n + 1], f);
  }

  lemma {:induction false} OrderStep(trace: seq<State>, steps: seq<Step>, home: nat -> BucketNr, n: nat, f: nat)
    requires IsRun(trace, steps) && Hashed(steps, home) && n < |steps| && OrderedAt(trace, steps, home, n, f)
    ensures OrderedAt(trace, steps, home, n + 1, f) <==> !(Overtakes(trace[n], home, steps[n]) && steps[n].p.flow == f)
  {
    RunMoves(trace, steps, home, n, f);
    LogStep(trace, steps, n, f);
    GivenStep(steps, n, f);
    StepOrder(trace[n], steps[n], trace[n + 1], home(f), f, UpOf(Log(trace, steps, n), f), GivenOf(steps[..n], f));
  }

  /** The same without the run. */
  lemma StepOrder(s: State, step: Step, s': State, k: BucketNr, f: nat, up: seq<Bytes>, given: seq<Bytes>)
    requires FlowStep(s, step, s', k, f) && up + HeldOf(s.g, k, f) == given
    ensures var sent := OfFlow(s'.g.out[|s.g.out|..], f) + PassedOn(s, step, f);
            (up + sent + HeldOf(s'.g, k, f) == given + Added(step, f))
            <==> !(step.Take? && step.p.flow == f && Bypasses(step.p)
                   && exists d :: d in HeldOf(s.g, k, f) && d != step.p.data)
  {
    var sent, held, held' := OfFlow(s'.g.out[|s.g.out|..], f), HeldOf(s.g, k, f), HeldOf(s'.g, k, f);
    if step.Take? && step.p.flow == f && PassesOn(s, step.p) {
      PassedOrder(s, step.p, up, sent);
    } else {
      Balance(up, held, given, sent, held', Added(step, f));
      assert sent + [] == sent;
    }
  }

  /** The order of a flow of which a packet is passed on. */
  lemma PassedOrder(s: State, p: Packet, up: seq<Bytes>, sent: seq<Bytes>)
    requires NodeOk(s.g, s.now) && PassesOn(s, p) && Shape(Receive(s.g, p, s.now))
    requires NodeMoves(s.g, Receive(s.g, p, s.now), p.bucket, p.flow, [])
    requires sent == OfFlow(Receive(s.g, p, s.now).out[|s.g.out|..], p.flow)
    ensures up + (sent + [p.data]) + HeldOf(Receive(s.g, p, s.now), p.bucket, p.flow)
            == up + HeldOf(s.g, p.bucket, p.flow) + [p.data]
            <==> !(Bypasses(p) && exists d :: d in HeldOf(s.g, p.bucket, p.flow) && d != p.data)
  {
    var d, held, held' := p.data, HeldOf(s.g, p.bucket, p.flow), HeldOf(Receive(s.g, p, s.now), p.bucket, p.flow);
    if Bypasses(p) {
      BypassLeaves(s, p);
      assert s.g.out[|s.g.out|..] == [] && sent == [];
      SwapIff(held, d);
      SameBehind(up, [d] + held, held + [d]);
      assert up + ([] + [d]) + held == up + ([d] + held) && up + held + [d] == up + (held + [d]);
    } else {
      PassedAlone(s, p);
      assert sent + [] == sent && held + [] == held;
      assert up + (held + [d]) + [] == up + held + [d];
    }
  }

  lemma SameBehind(up: seq<Bytes>, a: seq<Bytes>, b: seq<Bytes>)
    requires |a| == |b|
    ensures up + a == up + b <==> a == b
  {
    assert (up + a)[|up|..] == a && (up + b)[|up|..] == b;
  }

  ghost predicate AlwaysInOrder(trace: seq<State>, steps: seq<Step>, home: nat -> BucketNr)
    requires |trace| == |steps| + 1
  {
    forall n: nat, f: nat :: n <= |steps| ==> OrderedAt(trace, steps, home, n, f)
  }


  predicate NothingOvertaken(trace: seq<State>, steps: seq<Step>, home: nat -> BucketNr)
    requires |trace| == |steps| + 1
  {
    forall n :: 0 <= n < |steps| ==> Shape(trace[n].g) && !Overtakes(trace[n], home, steps[n])
  }

  lemma {:induction false} OrderedUpTo(trace: seq<State>, steps: seq<Step>, home: nat -> BucketNr, n: nat, f: nat)
    requires IsRun(trace, steps) && Hashed(steps, home) && NothingOvertaken(trace, steps, home) && n <= |steps|
    ensures OrderedAt(trace, steps, home, n, f)
  {
    if n == 0 {
      EmptyHoused(home(f), f);
      assert Log(trace, steps, 0) == [] && GivenOf(steps[..0], f) == [];
    } else {
      OrderedUpTo(trace, steps, home, n - 1, f);
      OrderStep(trace, steps, home, n - 1, f);
    }
  }

  /**
   Over every run: the datagrams of every flow go up in the order in which they came, at all
   times, if and only if no packet that is not offered to its bucket passes a different datagram of its flow
   that is held there.
   */
  lemma OrderIff(trace: seq<State>, steps: seq<Step>, home: nat -> BucketNr)
    requires IsRun(trace, steps) && Hashed(steps, home)
    ensures AlwaysInOrder(trace, steps, home) <==> NothingOvertaken(trace, steps, home)
  {
    if NothingOvertaken(trace, steps, home) {
      forall n: nat, f: nat | n <= |steps|
        ensures OrderedAt(trace, steps, home, n, f)
      {
        OrderedUpTo(trace, steps, home, n, f);
      }
    }
    if AlwaysInOrder(trace, steps, home) {
      forall n | 0 <= n < |steps|
        ensures Shape(trace[n].g) && !Overtakes(trace[n], home, steps[n])
      {
        AlwaysHoused(trace, steps, home, n, 0);
        AlwaysHoused(trace, steps, home, n + 1, 0);
        if steps[n].Take? {
          assert OrderedAt(trace, steps, home, n, steps[n].p.flow);
          assert OrderedAt(trace, steps, home, n + 1, steps[n].p.flow);
          OrderStep(trace, steps, home, n, steps[n].p.flow);
        }
      }
    }
  }

  /** A packet of flow 0 with one byte, with or without a checksum */
  function OneByte(checksum: bool, byte: nat): Packet { Packet(0, 0, checksum, 9, [byte], false, false, false, false) }

  /** The node with one packet held in its first bucket */
  function Holding(h: Held, passed: seq<Bytes>): Gro {
    Empty().(lists := Empty().lists[0 := [h]], counts := Empty().counts[0 := 1], bits := Empty().bits[0 := true],
      passed := passed)
  }

  lemma FirstIsHeld()
    ensures Receive(Empty(), OneByte(true, 1), 0) == Holding(NewHeld(OneByte(true, 1), 0), [])
  {
    var p, b := OneByte(true, 1), BucketOf(Empty(), 0);
    assert Match(b.list, 0) == 0 && Offer(b, p) == (b, false);
    assert [NewHeld(p, 0)] + [] == [NewHeld(p, 0)];
    assert Received(b, p, 0) == Bucket([NewHeld(p, 0)], 1, []);
  }

  lemma SecondPasses(h: Held)
    ensures Receive(Holding(h, []), OneByte(false, 2), 0) == Holding(h, [[2]])
  {
    var g, p := Holding(h, []), OneByte(false, 2);
    var b := BucketOf(g, 0);
    assert Offer(b, p) == (b, false) && Received(b, p, 0) == b && Passes(b, p);
    assert g.lists[0 := b.list] == g.lists && g.counts[0 := 1] == g.counts && g.bits[0 := true] == g.bits;
    assert [] + [[2]] == [[2]];
  }

  /** A datagram is held, and the next one of its flow, which has no checksum, goes up before it. */
  lemma NoChecksumOvertakes() returns (trace: seq<State>, steps: seq<Step>)
    ensures IsRun(trace, steps) && |steps| == 2 && Shape(trace[1].g) && Hashed(steps, f => 0)
    ensures Overtakes(trace[1], f => 0, steps[1])
    ensures UpOf(Log(trace, steps, 2), 0) == [[2]] && GivenOf(steps, 0) == [[1], [2]]
  {
    var p, q := OneByte(true, 1), OneByte(false, 2);
    var h := NewHeld(p, 0);
    var s0, s1 := State(Empty(), 0, multiset{}), State(Holding(h, []), 0, multiset{[1]});
    var s2 := State(Holding(h, [[2]]), 0, multiset{[1]} + multiset{[2]});
    FirstIsHeld();
    SecondPasses(h);
    trace, steps := [s0, s1, s2], [Take(p), Take(q)];
    TwoSteps(s0, s1, s2, p, q);
    OfFlowOne(h, 0);
    assert [1] in HeldOf(s1.g, 0, 0);
    UpAndGiven(s0, s1, s2, p, q);
  }

  lemma TwoSteps(s0: State, s1: State, s2: State, p: Packet, q: Packet)
    requires s0.g == Empty() && s0.given == multiset{} && p.bucket == q.bucket == 0 && Shape(s1.g)
    requires forall k :: 0 <= k < GRO_HASH_BUCKETS ==> |s0.g.lists[k]| == s0.g.counts[k]
    requires forall k :: 0 <= k < GRO_HASH_BUCKETS ==> |s1.g.lists[k]| == s1.g.counts[k]
    requires s1 == Apply(s0, Take(p)) && s2 == Apply(s1, Take(q))
    ensures IsRun([s0, s1, s2], [Take(p), Take(q)])
  {
    var trace, steps := [s0, s1, s2], [Take(p), Take(q)];
    assert IsStep(trace, steps, 0) && IsStep(trace, steps, 1);
  }

  lemma UpAndGiven(s0: State, s1: State, s2: State, p: Packet, q: Packet)
    requires p.flow == q.flow == 0 && s0.g.out == s1.g.out == s2.g.out && !PassesOn(s0, p) && PassesOn(s1, q)
    ensures UpOf(Log([s0, s1, s2], [Take(p), Take(q)], 2), 0) == [q.data]
    ensures GivenOf([Take(p), Take(q)], 0) == [p.data, q.data]
  {
    var trace, steps := [s0, s1, s2], [Take(p), Take(q)];
    assert s0.g.out[|s0.g.out|..] == [] && OfFlow([], 0) == [];
    SentOf(s0, Take(p), s1, 0);
    SentOf(s1, Take(q), s2, 0);
    assert Log(trace, steps, 1) == [] + SentUp(s0, Take(p), s1) == SentUp(s0, Take(p), s1);
    UpOfJoin(SentUp(s0, Take(p), s1), SentUp(s1, Take(q), s2), 0);
    assert steps[..1] == [Take(p)] && [Take(p)][..0] == [] && GivenOf([Take(p)], 0) == [p.data];
  }
}
