/**
 Generic receive offload of UDP datagrams: packets of one flow are held in a bucket and grown
 by the datagrams that follow, until the aggregate is completed.  The model covers the buckets,
 their counts and bitmask, ageing, and the segment aggregation of UDP (not the fragment lists).
 */
module GroEngine {
  const MAX_GRO_SKBS := 8
  const GRO_HASH_BUCKETS := 8
  const UDP_GRO_CNT_MAX := 64
  const UDP_HEADER := 8

  type Bytes = seq<nat>

  /** A held packet: len is the length in its UDP header; merged is history, the datagrams put in. */
  datatype Held = Held(flow: nat, len: nat, gsoSize: nat, payload: Bytes, count: nat, age: nat, merged: seq<Bytes>)

  /**
   A packet with one datagram.  flow stands for everything that must agree for two packets to be
   of the same flow; elide, flush, netFlush and refuse for what the rest of the stack decides:
   no offload on this device, a packet that must not be held, headers that end the aggregate, and an
   aggregate that cannot take more.
   */
  datatype Packet = Packet(bucket: nat, flow: nat, checksum: bool, len: nat, data: Bytes,
                           elide: bool, flush: bool, netFlush: bool, refuse: bool)

  /** struct gro_node; out and passed are what went up the stack, as aggregates and as they came. */
  datatype Gro = Gro(lists: seq<seq<Held>>, counts: seq<nat>, bits: seq<bool>, out: seq<Held>, passed: seq<Bytes>)

  predicate Shape(g: Gro) { |g.lists| == |g.counts| == |g.bits| == GRO_HASH_BUCKETS }

  function Empty(): Gro { Gro(seq(8, i => []), seq(8, i => 0), seq(8, i => false), [], []) }

  // ---------------------------------------------------------------- one packet

  /** Where the flow is held, or the length of the list. */
  function Match(list: seq<Held>, flow: nat): (i: nat)
    ensures i <= |list| && (i < |list| ==> list[i].flow == flow)
    ensures forall j :: 0 <= j < i ==> list[j].flow != flow
  {
    if list == [] || list[0].flow == flow then 0 else 1 + Match(list[1..], flow)
  }

  /** The checks of udp_gro_receive_segment() on the packet itself. */
  predicate Wellformed(p: Packet) { p.checksum && p.len > UDP_HEADER && p.len == UDP_HEADER + |p.data| }

  predicate Merges(held: Held, p: Packet) { p.len <= held.len && !p.netFlush && !p.refuse && !p.flush }

  /** skb_gro_receive() */
  function Grown(held: Held, p: Packet): Held {
    held.(payload := held.payload + p.data, count := held.count + 1, merged := held.merged + [p.data])
  }

  function NewHeld(p: Packet, now: nat): Held { Held(p.flow, p.len, |p.data|, p.data, 1, now, [p.data]) }

  function Remove(list: seq<Held>, i: nat): seq<Held>
    requires i < |list|
  {
    list[..i] + list[i + 1..]
  }

  /** The list, the count and what was completed: the rest of the state is not looked at. */
  datatype Bucket = Bucket(list: seq<Held>, count: nat, out: seq<Held>)

  /** Completing the held packet at index i. */
  function Complete(b: Bucket, i: nat): Bucket
    requires i < |b.list| && b.count > 0
  {
    Bucket(Remove(b.list, i), b.count - 1, b.out + [b.list[i]])
  }

  /** The merge and the completion it may bring; the answer is whether the packet was taken. */
  function Offer(b: Bucket, p: Packet): (Bucket, bool)
    requires |b.list| == b.count
  {
    var i := Match(b.list, p.flow);
    if !Wellformed(p) || i == |b.list| then (b, false)
    else if !Merges(b.list[i], p) then (Complete(b, i), false)
    else
      var grown := Grown(b.list[i], p);
      var b' := b.(list := b.list[i := grown]);
      if p.len != grown.len || grown.count >= UDP_GRO_CNT_MAX then (Complete(b', i), true) else (b', true)
  }

  /** Holding a new packet, after completing the oldest if the list is full. */
  function Hold(b: Bucket, p: Packet, now: nat): Bucket {
    if b.count >= MAX_GRO_SKBS && b.list != [] then
      Bucket([NewHeld(p, now)] + b.list[..|b.list| - 1], b.count, b.out + [b.list[|b.list| - 1]])
    else Bucket([NewHeld(p, now)] + b.list, b.count + 1, b.out)
  }

  function Holds(p: Packet): bool { Wellformed(p) && !p.flush }

  function Received(b: Bucket, p: Packet, now: nat): Bucket
    requires |b.list| == b.count
  {
    var (b', taken) := Offer(b, p);
    if taken || !Holds(p) then b' else Hold(b', p, now)
  }

  predicate Passes(b: Bucket, p: Packet)
    requires |b.list| == b.count
  {
    p.elide || (!Offer(b, p).1 && !Holds(p))
  }

  function BucketOf(g: Gro, i: nat): Bucket
    requires Shape(g) && i < GRO_HASH_BUCKETS
  {
    Bucket(g.lists[i], g.counts[i], g.out)
  }

  function WithBucket(g: Gro, i: nat, b: Bucket): Gro
    requires Shape(g) && i < GRO_HASH_BUCKETS
  {
    g.(lists := g.lists[i := b.list], counts := g.counts[i := b.count], bits := g.bits[i := b.count != 0], out := b.out)
  }

  /** dev_gro_receive() and what its caller does with a packet that is not held. */
  function Receive(g: Gro, p: Packet, now: nat): Gro
    requires Shape(g) && p.bucket < GRO_HASH_BUCKETS && |g.lists[p.bucket]| == g.counts[p.bucket]
  {
    var b := BucketOf(g, p.bucket);
    var g' := WithBucket(g, p.bucket, if p.elide then b else Received(b, p, now));
    if Passes(b, p) then g'.(passed := g.passed + [p.data]) else g'
  }

  // ---------------------------------------------------------------- flushing

  /** __gro_flush_chain(): oldest first, stopping at the first packet of this tick if only old ones go. */
  function FlushChain(b: Bucket, onlyOld: bool, now: nat): (r: Bucket)
    decreases |b.list|
  {
    if b.list == [] || b.count == 0 then b
    else
      var last := b.list[|b.list| - 1];
      if onlyOld && last.age == now then b
      else FlushChain(Bucket(b.list[..|b.list| - 1], b.count - 1, b.out + [last]), onlyOld, now)
  }

  /** __gro_flush() from bucket i on: the chains whose bit is set, lowest bit first. */
  function FlushFrom(g: Gro, i: nat, onlyOld: bool, now: nat): Gro
    requires Shape(g) && i <= GRO_HASH_BUCKETS
    decreases GRO_HASH_BUCKETS - i
  {
    if i == GRO_HASH_BUCKETS then g
    else
      var g' := if g.bits[i] then WithBucket(g, i, FlushChain(BucketOf(g, i), onlyOld, now)) else g;
      FlushFrom(g', i + 1, onlyOld, now)
  }

  // ---------------------------------------------------------------- cutting

  /** Cutting a payload into pieces of gso_size, the last one as long as what is left. */
  function Cut(payload: Bytes, size: nat): seq<Bytes>
    decreases |payload|
  {
    if payload == [] || size == 0 then []
    else if |payload| <= size then [payload]
    else [payload[..size]] + Cut(payload[size..], size)
  }

  function Concat(parts: seq<Bytes>): Bytes { if parts == [] then [] else parts[0] + Concat(parts[1..]) }

  /** All parts but the last have the given size; the last is not longer and not empty. */
  predicate Pieces(parts: seq<Bytes>, size: nat) {
    && size > 0 && (forall i :: 0 <= i < |parts| ==> 0 < |parts[i]| <= size)
    && (forall i :: 0 <= i < |parts| - 1 ==> |parts[i]| == size)
  }

  lemma {:induction false} CutUndoesConcat(parts: seq<Bytes>, size: nat)
    requires Pieces(parts, size)
    ensures Cut(Concat(parts), size) == parts
  {
    if |parts| == 1 {
      assert Concat(parts[1..]) == [];
      assert Concat(parts) == parts[0] + [] == parts[0];
      assert parts == [parts[0]];
    } else if |parts| > 1 {
      CutUndoesConcat(parts[1..], size);
      var rest := Concat(parts[1..]);
      assert |rest| > 0 by { assert Concat(parts[1..]) == parts[1] + Concat(parts[1..][1..]); }
      assert Concat(parts)[..size] == parts[0] && Concat(parts)[size..] == rest;
    }
  }

  lemma {:induction false} ConcatAppend(parts: seq<Bytes>, x: Bytes)
    ensures Concat(parts + [x]) == Concat(parts) + x
  {
    if parts == [] {
      assert parts + [x] == [x] && [x][1..] == [] && Concat([]) == [];
      assert Concat([x]) == x + [] == x;
    } else {
      assert (parts + [x])[1..] == parts[1..] + [x];
      ConcatAppend(parts[1..], x);
    }
  }
}
