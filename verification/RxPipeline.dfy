/**
 The receive path of one WireGuard peer: producers put packets on the peer's queue and
 the device ring, workers decrypt them in any order and wake NAPI, one poll drains the
 queue from its head.

 The queue is a linked list with a stub node.  Enqueueing exchanges the head and then
 links the old head to the new node, as two steps; dequeueing is a sequence of loads
 and stores.  Every atomic or marked memory access is a step of its own, and steps of
 all threads interleave freely (sequentially consistent order).

 NAPI is reduced to its two bits: napi_schedule() sets SCHED, or MISSED when SCHED is
 already set; napi_complete_done() clears SCHED unless MISSED was set, in which case the
 poll runs again.
 */
module RxPipeline {
  import opened Maybe

  type Pkt = nat

  /** A list node: a packet, or queue->empty. */
  datatype Node = Stub | P(pkt: Pkt)

  datatype PacketState = Uncrypted | Crypted | Dead

  /** napi_schedule() after every packet, or only behind the guard on queue->tail. */
  datatype Trigger = Always | Guarded

  /** How far a packet's own thread (producer, then worker) has come; one that is refused has the references to put
      that its error path puts. */
  datatype Stage =
    | Entered
    | Reserved
    | Nulled
    | Exchanged(prev: Node)
    | Linked
    | Ringed
    | Decided(verdict: PacketState)
    | Stored
    | SawTail(tail: Node)
    | Woken
    | Refused(keypair: bool, peer: bool)
    | Rejected

  /** Where the poll is.  `t` is the local variable tail, `n` the local variable next. */
  datatype Poll =
    | Off
    | Top
    | LoadFirst
    | StoreFirst(n: Node)
    | LoadSecond(t: Node)
    | StoreTail(t: Node, n: Node)
    | Decrement(t: Node)
    | CheckHead(t: Node)
    | StubNull(t: Node)
    | StubXchg(t: Node)
    | StubLink(t: Node, prev: Node)
    | LoadThird(t: Node)
    | CheckState(t: Node)
    | Dispose(t: Node)
    | Stop

  const MAX_QUEUED_PACKETS := 1024

  datatype Queue = Queue(next: map<Node, Option<Node>>, head: Node, tail: Node, count: int, peeked: Option<Node>)

  /** References a packet took and gave back, and how often it was freed or handed on. */
  datatype Ledger = Ledger(peerGets: nat, peerPuts: nat, keypairGets: nat, keypairPuts: nat, ends: nat)

  /** Written by the steps for the proof; no step reads it, except that the memory of a
      disposed packet may hold anything. */
  datatype History = History(chain: seq<Node>, order: seq<Node>, out: seq<Node>, gone: seq<Node>,
                             handed: seq<Node>, freed: seq<Node>, gap: bool)

  /** good is the packets whose counter and source the poll will accept; it is fixed during a run and any set. */
  datatype State = State(
    trigger: Trigger,
    good: set<Pkt>,
    q: Queue,
    stage: map<Pkt, Stage>,
    word: map<Pkt, PacketState>,
    ledger: map<Pkt, Ledger>,
    poll: Poll,
    sched: bool,
    missed: bool,
    h: History)

  datatype Step =
    | Enter(p: Pkt)
    | EnterUnknown(p: Pkt, peerFound: bool)
    | PeerDead(p: Pkt)
    | Discard(p: Pkt)
    | Reserve(p: Pkt)
    | NullNext(p: Pkt)
    | Exchange(p: Pkt)
    | Link(p: Pkt)
    | Produce(p: Pkt, ringFull: bool)
    | Decrypt(p: Pkt, verdict: PacketState)
    | Store(p: Pkt)
    | Wake(p: Pkt)
    | ReadTail(p: Pkt)
    | Decide(p: Pkt, read: PacketState)
    | PollStep(more: bool)

  function NextOf(q: Queue, n: Node): Option<Node> {
    if n in q.next then q.next[n] else None
  }

  function WordOf(s: State, n: Node): PacketState {
    if n.P? && n.pkt in s.word then s.word[n.pkt] else Crypted
  }

  predicate At(s: State, p: Pkt, stage: Stage) {
    p in s.stage && s.stage[p] == stage
  }

  predicate Enabled(s: State, step: Step) {
    match step
    case Enter(p) => p !in s.stage
    case EnterUnknown(p, _) => p !in s.stage
    case PeerDead(p) => At(s, p, Entered)
    case Discard(p) => p in s.stage && s.stage[p].Refused?
    case Reserve(p) => At(s, p, Entered)
    case NullNext(p) => At(s, p, Reserved)
    case Exchange(p) => At(s, p, Nulled)
    case Link(p) => p in s.stage && s.stage[p].Exchanged?
    case Produce(p, _) => At(s, p, Linked)
    case Decrypt(p, v) => At(s, p, Ringed) && v != Uncrypted
    case Store(p) => p in s.stage && s.stage[p].Decided?
    case Wake(p) => At(s, p, Stored) && s.trigger.Always?
    case ReadTail(p) => At(s, p, Stored) && s.trigger.Guarded?
    case Decide(p, read) =>
      && p in s.stage && s.stage[p].SawTail?
      && (s.stage[p].tail in s.h.gone || read == WordOf(s, s.stage[p].tail))
    case PollStep(_) => s.poll.Off? ==> s.sched
  }

  /** napi_schedule() */
  function Schedule(s: State): State {
    if s.sched then s.(missed := true) else s.(sched := true)
  }

  function SetStage(s: State, p: Pkt, stage: Stage): State {
    s.(stage := s.stage[p := stage])
  }

  /** atomic_add_unless(): a full queue sends the packet down the -ENOSPC path. */
  function TryReserve(s: State, p: Pkt): State {
    if s.q.count == MAX_QUEUED_PACKETS then SetStage(s, p, Refused(true, true))
    else
      SetStage(s, p, Reserved).(q := s.q.(count := s.q.count + 1))
  }

  function ExchangeHead(s: State, p: Pkt): State {
    SetStage(s, p, Exchanged(s.q.head))
      .(q := s.q.(head := P(p)), h := s.h.(chain := s.h.chain + [P(p)], order := s.h.order + [P(p)]))
  }

  function LinkPrev(s: State, p: Pkt): State
    requires p in s.stage && s.stage[p].Exchanged?
  {
    SetStage(s, p, Linked).(q := s.q.(next := s.q.next[s.stage[p].prev := Some(P(p))]))
  }

  /** One step of wg_packet_rx_poll() with its peek and dequeue; `more` says whether the
      budget lets the loop go on after a packet. */
  function Advance(s: State, more: bool): State {
    match s.poll
    case Off => s.(poll := Top)
    case Top =>
      if s.q.peeked.Some? then s.(poll := CheckState(s.q.peeked.value))
      else s.(poll := LoadFirst, h := s.h.(gap := false))
    case LoadFirst =>
      var t := s.q.tail;
      var n := NextOf(s.q, t);
      if t.Stub? then s.(poll := if n.None? then Stop else StoreFirst(n.value))
      else s.(poll := if n.None? then CheckHead(t) else StoreTail(t, n.value))
    case StoreFirst(n) => s.(q := s.q.(tail := n), poll := LoadSecond(n), h := s.h.(chain := Rest(s.h.chain)))
    case LoadSecond(t) =>
      var n := NextOf(s.q, t);
      s.(poll := if n.None? then CheckHead(t) else StoreTail(t, n.value))
    case StoreTail(t, n) =>
      s.(q := s.q.(tail := n), poll := Decrement(t), h := s.h.(chain := Rest(s.h.chain), out := s.h.out + [t]))
    case Decrement(t) => s.(q := s.q.(count := s.q.count - 1, peeked := Some(t)), poll := CheckState(t))
    case CheckHead(t) => s.(poll := if t != s.q.head then Stop else StubNull(t))
    case StubNull(t) => s.(q := s.q.(next := s.q.next[Stub := None]), poll := StubXchg(t))
    case StubXchg(t) =>
      s.(q := s.q.(head := Stub), poll := StubLink(t, s.q.head), h := s.h.(chain := s.h.chain + [Stub]))
    case StubLink(t, prev) => s.(q := s.q.(next := s.q.next[prev := Some(Stub)]), poll := LoadThird(t))
    case LoadThird(t) =>
      var n := NextOf(s.q, t);
      s.(poll := if n.None? then Stop else StoreTail(t, n.value))
    case CheckState(t) => s.(poll := if WordOf(s, t) == Uncrypted then Stop else Dispose(t))
    case Dispose(t) => Disposed(s, t, more)
    case Stop => if s.missed then s.(missed := false, poll := Off) else s.(sched := false, poll := Off)
  }

  /** The tests of the poll loop: the packet was decrypted, and its counter and source are accepted. */
  predicate Accepted(s: State, t: Node) { WordOf(s, t) == Crypted && t.P? && t.pkt in s.good }

  /** The body of the poll loop: the packet is handed on or freed, and its two references
      are put. */
  function Disposed(s: State, t: Node, more: bool): State {
    s.(q := s.q.(peeked := None), poll := if more then Top else Off,
       h := s.h.(gone := s.h.gone + [t],
                 handed := if Accepted(s, t) then s.h.handed + [t] else s.h.handed,
                 freed := if Accepted(s, t) then s.h.freed else s.h.freed + [t]),
       ledger := if t.P? && t.pkt in s.ledger then s.ledger[t.pkt := PutAll(s.ledger[t.pkt])] else s.ledger)
  }

  function PutAll(l: Ledger): Ledger {
    l.(peerPuts := l.peerPuts + 1, keypairPuts := l.keypairPuts + 1, ends := l.ends + 1)
  }

  /** The error path of wg_packet_consume_data(): put what is to be put, then free the packet. */
  function Discarded(s: State, p: Pkt): State
    requires p in s.stage && s.stage[p].Refused?
  {
    SetStage(s, p, Rejected).(
      ledger := if p in s.ledger then s.ledger[p := PutSome(s.ledger[p], s.stage[p].keypair, s.stage[p].peer)]
        else s.ledger)
  }

  function PutSome(l: Ledger, keypair: bool, peer: bool): Ledger {
    l.(peerPuts := l.peerPuts + if peer then 1 else 0, keypairPuts := l.keypairPuts + if keypair then 1 else 0,
       ends := l.ends + 1)
  }

  /** The packet's state is stored once a reference of the peer is taken that outlives the packet's own. */
  function StoreWord(s: State, p: Pkt): State
    requires p in s.stage && s.stage[p].Decided?
  {
    SetStage(s, p, Stored).(
      word := s.word[p := s.stage[p].verdict],
      ledger := if p in s.ledger then s.ledger[p := GetPeer(s.ledger[p])] else s.ledger)
  }

  /** The packet's thread puts that reference and is done. */
  function Woke(s: State, p: Pkt): State {
    SetStage(s, p, Woken).(ledger := if p in s.ledger then s.ledger[p := PutPeer(s.ledger[p])] else s.ledger)
  }

  function GetPeer(l: Ledger): Ledger { l.(peerGets := l.peerGets + 1) }

  function PutPeer(l: Ledger): Ledger { l.(peerPuts := l.peerPuts + 1) }

  function Rest(chain: seq<Node>): seq<Node> {
    if chain == [] then [] else chain[1..]
  }

  function Move(s: State, step: Step): State
    requires Enabled(s, step)
  {
    match step
    case Enter(p) =>
      SetStage(s, p, Entered).(word := s.word[p := Uncrypted], ledger := s.ledger[p := Ledger(1, 0, 1, 0, 0)])
    case EnterUnknown(p, peerFound) =>
      var gets := if peerFound then 1 else 0;
      SetStage(s, p, Refused(false, peerFound)).(ledger := s.ledger[p := Ledger(gets, 0, 0, 0, 0)])
    case PeerDead(p) => SetStage(s, p, Refused(true, true))
    case Discard(p) => Discarded(s, p)
    case Reserve(p) => TryReserve(s, p)
    case NullNext(p) => SetStage(s, p, Nulled).(q := s.q.(next := s.q.next[P(p) := None]))
    case Exchange(p) => ExchangeHead(s, p)
    case Link(p) => LinkPrev(s, p)
    case Produce(p, ringFull) => SetStage(s, p, if ringFull then Decided(Dead) else Ringed)
    case Decrypt(p, v) => SetStage(s, p, Decided(v))
    case Store(p) => StoreWord(s, p)
    case Wake(p) => Woke(Schedule(s), p)
    case ReadTail(p) => SetStage(s, p, SawTail(s.q.tail))
    case Decide(p, read) =>
      Woke(if s.stage[p].tail.Stub? || read != Uncrypted then Schedule(s) else s, p)
    case PollStep(more) => Advance(s, more)
  }

  predicate MidLink(s: State) {
    exists p :: p in s.stage && s.stage[p].Exchanged?
  }

  predicate NoPackets(s: State) {
    forall i :: 0 <= i < |s.h.chain| ==> s.h.chain[i].Stub?
  }

  /** Every step also records whether, since the dequeue began, there was a moment with no
      packet in the list or with a producer between exchange and link. */
  function Apply(s: State, step: Step): State
    requires Enabled(s, step)
  {
    var t := Move(s, step);
    t.(h := t.h.(gap := t.h.gap || NoPackets(t) || MidLink(t)))
  }

  predicate Init(s: State) {
    && s.q == Queue(map[Stub := None], Stub, Stub, 0, None)
    && s.stage == map[] && s.word == map[] && s.ledger == map[]
    && s.poll == Off && !s.sched && !s.missed
    && s.h == History([Stub], [], [], [], [], [], false)
  }

  predicate IsStep(trace: seq<State>, steps: seq<Step>, i: nat)
    requires i < |steps| && |trace| == |steps| + 1
  {
    Enabled(trace[i], steps[i]) && trace[i + 1] == Apply(trace[i], steps[i])
  }

  predicate IsRun(trace: seq<State>, steps: seq<Step>) {
    && |trace| == |steps| + 1
    && Init(trace[0])
    && forall i :: 0 <= i < |steps| ==> IsStep(trace, steps, i)
  }
}
