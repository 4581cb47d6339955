/**
 What every step of the receive pipeline keeps: the list is the exchange order, the
 poll's local variables describe it, and a packet that has not been woken is waiting
 whenever the poll has stopped short of the end of the queue.
 */
module RxSafety {
  import opened Maybe
  import opened RxPipeline

  // ----- the list -----

  predicate Distinct(xs: seq<Node>) {
    forall i, j :: 0 <= i < j < |xs| ==> xs[i] != xs[j]
  }

  /** The nodes from queue->tail to queue->head, in exchange order. */
  predicate ChainOk(chain: seq<Node>, head: Node, tail: Node) {
    chain != [] && chain[0] == tail && chain[|chain| - 1] == head && Distinct(chain)
  }

  /** Node b has been exchanged in behind a, and a->next is not written yet. */
  predicate Pending(a: Node, b: Node, stage: map<Pkt, Stage>, poll: Poll) {
    || (b.P? && b.pkt in stage && stage[b.pkt] == Exchanged(a))
    || (b.Stub? && poll.StubLink? && poll.prev == a)
  }

  predicate LinkAt(a: Node, b: Node, next: map<Node, Option<Node>>, stage: map<Pkt, Stage>, poll: Poll) {
    && a in next
    && (next[a] == Some(b) || (next[a] == None && Pending(a, b, stage, poll)))
  }

  predicate LinksOk(chain: seq<Node>, next: map<Node, Option<Node>>, stage: map<Pkt, Stage>, poll: Poll) {
    && (forall i :: 0 <= i < |chain| - 1 ==> LinkAt(chain[i], chain[i + 1], next, stage, poll))
    && (chain != [] ==> chain[|chain| - 1] in next && next[chain[|chain| - 1]] == None)
  }

  /** The unwritten link a -> b is in the chain. */
  predicate InPlace(chain: seq<Node>, next: map<Node, Option<Node>>, a: Node, b: Node) {
    exists i :: 0 <= i < |chain| - 1 && chain[i] == a && chain[i + 1] == b && a in next && next[a] == None
  }

  predicate WritersOk(chain: seq<Node>, next: map<Node, Option<Node>>, stage: map<Pkt, Stage>, poll: Poll) {
    && (forall p :: p in stage && stage[p].Exchanged? ==> InPlace(chain, next, stage[p].prev, P(p)))
    && (poll.StubLink? ==> InPlace(chain, next, poll.prev, Stub))
    && (forall p :: p in stage && stage[p].Nulled? ==> P(p) in next && next[P(p)] == None)
    && (poll.StubXchg? ==> Stub in next && next[Stub] == None)
  }

  predicate ListOk(s: State) {
    && ChainOk(s.h.chain, s.q.head, s.q.tail)
    && LinksOk(s.h.chain, s.q.next, s.stage, s.poll)
    && WritersOk(s.h.chain, s.q.next, s.stage, s.poll)
  }

  predicate Dequeueing(poll: Poll) {
    poll.LoadFirst? || poll.StoreFirst? || poll.LoadSecond? || poll.StoreTail? || poll.Decrement? || poll.CheckHead?
    || poll.StubNull? || poll.StubXchg? || poll.StubLink? || poll.LoadThird?
  }

  /** What the poll's local variables mean. */
  predicate PollOk(s: State) {
    && (!s.poll.Off? ==> s.sched)
    && (s.missed ==> s.sched)
    && (Dequeueing(s.poll) ==> s.q.peeked.None?)
    && match s.poll
       case StoreFirst(n) => s.q.tail.Stub? && NextOf(s.q, Stub) == Some(n)
       case LoadSecond(t) => t == s.q.tail && t.P?
       case StoreTail(t, n) => t == s.q.tail && t.P? && NextOf(s.q, t) == Some(n)
       case Decrement(t) => t.P?
       case CheckHead(t) => t == s.q.tail && t.P?
       case StubNull(t) => t == s.q.tail && t.P? && Stub !in s.h.chain
       case StubXchg(t) => t == s.q.tail && t.P? && Stub !in s.h.chain
       case StubLink(t, prev) => t == s.q.tail && t.P?
       case LoadThird(t) => t == s.q.tail && t.P? && |s.h.chain| >= 2
       case CheckState(t) => s.q.peeked == Some(t)
       case Dispose(t) => s.q.peeked == Some(t) && WordOf(s, t) != Uncrypted
       case _ => true
  }

  // ----- order and accounting -----

  function Packets(chain: seq<Node>): seq<Node> {
    if chain == [] then []
    else if chain[0].Stub? then Packets(chain[1..])
    else [chain[0]] + Packets(chain[1..])
  }

  function Held(s: State): seq<Node> {
    if s.q.peeked.Some? then [s.q.peeked.value] else if s.poll.Decrement? then [s.poll.t] else []
  }

  /** Packets leave in the order in which they were exchanged in. */
  predicate OrderOk(s: State) {
    && s.h.order == s.h.out + Packets(s.h.chain)
    && s.h.out == s.h.gone + Held(s)
    && (s.poll.Decrement? ==> s.q.peeked.None?)
  }

  predicate HasEntered(stage: Stage) {
    !stage.Entered? && !stage.Reserved? && !stage.Nulled? && !Leaves(stage)
  }

  /** The packet is turned away. */
  predicate Leaves(stage: Stage) { stage.Refused? || stage.Rejected? }

  predicate MembersOk(order: seq<Node>, stage: map<Pkt, Stage>) {
    && Distinct(order)
    && (forall i :: 0 <= i < |order| ==> order[i].P? && order[i].pkt in stage && HasEntered(stage[order[i].pkt]))
    && (forall p :: p in stage && stage[p].SawTail? ==> stage[p].tail.Stub? || stage[p].tail in order)
  }

  predicate Early(stage: Stage) {
    stage.Entered? || stage.Reserved? || stage.Nulled? || stage.Exchanged? || stage.Linked? || stage.Ringed?
      || stage.Decided?
  }

  predicate WordsOk(stage: map<Pkt, Stage>, word: map<Pkt, PacketState>, gone: seq<Node>) {
    && (forall p :: p in stage && !Leaves(stage[p]) ==> p in word && (word[p] == Uncrypted <==> Early(stage[p])))
    && (forall p :: p in stage && stage[p].Decided? ==> stage[p].verdict != Uncrypted)
    && (forall i :: 0 <= i < |gone| ==> gone[i].P? && gone[i].pkt in stage && !Early(stage[gone[i].pkt]))
  }

  predicate InCount(stage: map<Pkt, Stage>, chain: seq<Node>, poll: Poll, p: Pkt) {
    p in stage && (stage[p].Reserved? || stage[p].Nulled? || P(p) in chain || poll == Decrement(P(p)))
  }

  function Counted(stage: map<Pkt, Stage>, chain: seq<Node>, poll: Poll): set<Pkt> {
    set p | p in stage && InCount(stage, chain, poll, p)
  }

  predicate CountOk(s: State) {
    s.q.count == |Counted(s.stage, s.h.chain, s.poll)| <= MAX_QUEUED_PACKETS
  }

  predicate LedgerOk(stage: map<Pkt, Stage>, ledger: map<Pkt, Ledger>, gone: seq<Node>) {
    forall p :: p in stage ==> p in ledger && EntryOk(stage[p], ledger[p], P(p) in gone)
  }

  predicate EntryOk(stage: Stage, l: Ledger, disposed: bool) {
    if stage.Refused? then
      !disposed && l == Ledger(if stage.peer then 1 else 0, 0, if stage.keypair then 1 else 0, 0, 0)
    else if stage.Rejected? then !disposed && l.peerGets == l.peerPuts && l.keypairGets == l.keypairPuts && l.ends == 1
    else
      && l.peerGets == (if AfterStore(stage) then 2 else 1)
      && l.peerPuts == (if disposed then 1 else 0) + (if stage.Woken? then 1 else 0)
      && l.keypairGets == 1 && l.keypairPuts == l.ends == if disposed then 1 else 0
  }

  predicate AfterStore(stage: Stage) { stage.Stored? || stage.SawTail? || stage.Woken? }

  // ----- nobody is stranded -----

  predicate InQueue(s: State, n: Node) {
    n in s.h.order && n !in s.h.gone
  }

  /** The packet's own wake step is still to come, and it will schedule the poll or leave
      another such packet behind. */
  predicate Hopeful(s: State, p: Pkt) {
    && p in s.stage && InQueue(s, P(p))
    && (Early(s.stage[p]) || s.stage[p].Stored?
        || (s.stage[p].SawTail? && (s.stage[p].tail.Stub? || InQueue(s, s.stage[p].tail))))
  }

  predicate SomeHopeful(s: State) {
    exists p :: p in s.stage && Hopeful(s, p)
  }

  predicate Drained(s: State) {
    s.h.order == s.h.gone
  }

  predicate DrainOk(s: State) {
    && (!s.sched ==> Drained(s) || SomeHopeful(s))
    && (s.poll.Stop? ==> s.missed || Drained(s) || SomeHopeful(s))
    && (s.poll.CheckHead? ==> s.missed || s.h.chain == [s.poll.t] || SomeHopeful(s))
  }

  /** An empty load was explained, or will be once the list grows. */
  predicate GapOk(s: State) {
    s.poll.CheckHead? ==> s.h.gap || s.h.chain == [s.poll.t]
  }

  predicate Shape(s: State) { ListOk(s) && PollOk(s) }

  predicate Books(s: State) {
    && OrderOk(s) && MembersOk(s.h.order, s.stage)
    && WordsOk(s.stage, s.word, s.h.gone) && CountOk(s) && LedgerOk(s.stage, s.ledger, s.h.gone)
  }

  predicate Core(s: State) { Shape(s) && Books(s) && DrainOk(s) }

  predicate Inv(s: State) { Core(s) && GapOk(s) }

  lemma InitOk(s: State)
    requires Init(s)
    ensures Inv(s)
  {
    assert Counted(s.stage, s.h.chain, s.poll) == {};
  }

  // ----- packets of the chain -----

  lemma {:induction false} PacketsAppend(a: seq<Node>, n: Node)
    ensures Packets(a + [n]) == Packets(a) + (if n.Stub? then [] else [n])
  {
    if a == [] {
      assert a + [n] == [n];
      assert [n][1..] == [];
    } else {
      assert (a + [n])[1..] == a[1..] + [n];
      PacketsAppend(a[1..], n);
    }
  }

  lemma {:induction false} PacketIn(chain: seq<Node>, n: Node)
    ensures n in Packets(chain) <==> n in chain && n.P?
  {
    if chain != [] {
      PacketIn(chain[1..], n);
      assert chain == [chain[0]] + chain[1..];
    }
  }

  /** A packet in the chain is in the queue. */
  lemma ChainInQueue(s: State, n: Node)
    requires OrderOk(s) && MembersOk(s.h.order, s.stage) && n in s.h.chain && n.P?
    ensures InQueue(s, n)
  {
    PacketIn(s.h.chain, n);
    var i :| 0 <= i < |Packets(s.h.chain)| && Packets(s.h.chain)[i] == n;
    assert s.h.order[|s.h.out| + i] == n;
    forall j | 0 <= j < |s.h.gone|
      ensures s.h.gone[j] != n
    {
      assert s.h.order[j] == s.h.gone[j];
    }
  }

  lemma HeldInQueue(s: State, n: Node)
    requires OrderOk(s) && MembersOk(s.h.order, s.stage) && Held(s) == [n]
    ensures InQueue(s, n) && n.P?
  {
    assert s.h.order[|s.h.gone|] == n;
    forall j | 0 <= j < |s.h.gone|
      ensures s.h.gone[j] != n
    {
      assert s.h.order[j] == s.h.gone[j];
    }
  }

  // ----- steps of a packet's own thread that leave the list alone -----

  predicate SameWriters(a: map<Pkt, Stage>, b: map<Pkt, Stage>) {
    && (forall p :: p in a && a[p].Exchanged? ==> p in b && b[p] == a[p])
    && (forall p :: p in b && (b[p].Exchanged? || b[p].Nulled?) ==> p in a && a[p] == b[p])
  }

  lemma ListFrame(s: State, t: State)
    requires ListOk(s) && t.h.chain == s.h.chain && t.poll == s.poll && SameWriters(s.stage, t.stage)
    requires t.q.next == s.q.next && t.q.head == s.q.head && t.q.tail == s.q.tail
    ensures ListOk(t)
  {
  }

  /** Another queue, same list: only count differs. */
  lemma PollFrame(s: State, t: State)
    requires PollOk(s) && t.poll == s.poll && t.h.chain == s.h.chain
    requires t.q.next == s.q.next && t.q.tail == s.q.tail && t.q.peeked == s.q.peeked
    requires s.sched ==> t.sched
    requires t.missed ==> t.sched
    requires s.poll.Dispose? ==> WordOf(t, s.poll.t) != Uncrypted
    ensures PollOk(t)
  {
  }

  /** Packet p alone moves on, from one settled stage to another. */
  lemma MoveStage(s: State, p: Pkt, stage: Stage)
    requires Shape(s) && OrderOk(s)
    requires p in s.stage ==> !s.stage[p].Exchanged?
    requires !stage.Exchanged? && !stage.Nulled?
    ensures ListOk(SetStage(s, p, stage)) && PollOk(SetStage(s, p, stage)) && OrderOk(SetStage(s, p, stage))
  {
    ListFrame(s, SetStage(s, p, stage));
  }

  lemma CountSame(s: State, p: Pkt, stage: Stage)
    requires CountOk(s)
    requires InCount(s.stage, s.h.chain, s.poll, p) <==> InCount(s.stage[p := stage], s.h.chain, s.poll, p)
    ensures CountOk(SetStage(s, p, stage))
  {
    var t := SetStage(s, p, stage);
    assert Counted(t.stage, t.h.chain, t.poll) == Counted(s.stage, s.h.chain, s.poll);
  }

  /** A stranger is in no list. */
  lemma Stranger(s: State, p: Pkt)
    requires OrderOk(s) && MembersOk(s.h.order, s.stage)
    requires p in s.stage ==> !HasEntered(s.stage[p])
    ensures P(p) !in s.h.order && P(p) !in s.h.gone && P(p) !in s.h.chain && P(p) !in Held(s)
  {
    PacketIn(s.h.chain, P(p));
  }

  predicate Scheduled(s: State, t: State) {
    if s.sched then t.sched && t.missed else t.sched && s.poll.Off?
  }

  lemma DrainFrame(s: State, t: State)
    requires DrainOk(s) && t.poll == s.poll && t.h.chain == s.h.chain && t.h.order == s.h.order && t.h.gone == s.h.gone
    requires (t.sched == s.sched && t.missed == s.missed && (SomeHopeful(s) ==> SomeHopeful(t))) || Scheduled(s, t)
    ensures DrainOk(t)
  {
  }

  /** Hope survives if packet p keeps its own. */
  lemma HopeFrame(s: State, t: State, p: Pkt)
    requires t.h.order == s.h.order && t.h.gone == s.h.gone
    requires forall x :: x in s.stage && x != p ==> x in t.stage && t.stage[x] == s.stage[x]
    requires p in s.stage && Hopeful(s, p) ==> p in t.stage && Hopeful(t, p)
    ensures SomeHopeful(s) ==> SomeHopeful(t)
  {
    if SomeHopeful(s) {
      var x :| x in s.stage && Hopeful(s, x);
      assert Hopeful(t, x);
    }
  }

  lemma EnterShape(s: State, p: Pkt)
    requires Shape(s) && OrderOk(s) && MembersOk(s.h.order, s.stage) && Enabled(s, Enter(p))
    ensures Shape(Move(s, Enter(p)))
  {
    var t := Move(s, Enter(p));
    ListFrame(s, t);
    if s.poll.Dispose? { HeldInQueue(s, s.poll.t); }
    PollFrame(s, t);
  }

  /** A newcomer or a packet turned away changes no list and no count. */
  lemma OutsiderCount(s: State, p: Pkt, stage: Stage)
    requires OrderOk(s) && MembersOk(s.h.order, s.stage) && CountOk(s)
    requires p in s.stage ==> s.stage[p].Entered? || s.stage[p].Refused?
    requires stage.Entered? || Leaves(stage)
    ensures CountOk(SetStage(s, p, stage))
  {
    Stranger(s, p);
    var t := SetStage(s, p, stage);
    if s.poll.Decrement? { HeldInQueue(s, s.poll.t); }
    assert Counted(t.stage, t.h.chain, t.poll) == Counted(s.stage, s.h.chain, s.poll);
  }

  lemma OutsiderMembers(s: State, p: Pkt, stage: Stage)
    requires OrderOk(s) && MembersOk(s.h.order, s.stage)
    requires p in s.stage ==> !HasEntered(s.stage[p])
    requires !HasEntered(stage)
    ensures MembersOk(s.h.order, s.stage[p := stage])
  {
    Stranger(s, p);
  }

  lemma OutsiderDrain(s: State, t: State, p: Pkt)
    requires OrderOk(s) && MembersOk(s.h.order, s.stage) && DrainOk(s)
    requires p in s.stage ==> !HasEntered(s.stage[p])
    requires t.poll == s.poll && t.h == s.h && t.sched == s.sched && t.missed == s.missed
    requires forall x :: x in s.stage && x != p ==> x in t.stage && t.stage[x] == s.stage[x]
    ensures DrainOk(t)
  {
    Stranger(s, p);
    HopeFrame(s, t, p);
    DrainFrame(s, t);
  }

  lemma EnterBooks(s: State, p: Pkt)
    requires Books(s) && Enabled(s, Enter(p))
    ensures Books(Move(s, Enter(p)))
  {
    Stranger(s, p);
    OutsiderCount(s, p, Entered);
    OutsiderMembers(s, p, Entered);
  }

  lemma EnterOk(s: State, p: Pkt)
    requires Core(s) && Enabled(s, Enter(p))
    ensures Core(Move(s, Enter(p)))
  {
    EnterShape(s, p);
    EnterBooks(s, p);
    OutsiderDrain(s, Move(s, Enter(p)), p);
  }

  lemma RejectBooks(s: State, p: Pkt, stage: Stage, l: Ledger)
    requires Books(s) && (p in s.stage ==> s.stage[p].Entered? || s.stage[p].Refused?)
    requires Leaves(stage) && EntryOk(stage, l, false)
    ensures Books(SetStage(s, p, stage).(ledger := s.ledger[p := l]))
  {
    Stranger(s, p);
    OutsiderCount(s, p, stage);
    OutsiderMembers(s, p, stage);
    OutsiderWords(s.stage, s.word, s.h.gone, p, stage);
    OwnLedger(s.stage, s.ledger, s.h.gone, p, stage, l);
  }

  lemma OutsiderWords(stage: map<Pkt, Stage>, word: map<Pkt, PacketState>, gone: seq<Node>, p: Pkt, st: Stage)
    requires WordsOk(stage, word, gone) && P(p) !in gone && Leaves(st)
    ensures WordsOk(stage[p := st], word, gone)
  {
  }

  /** The packet is turned away (unknown keypair, dead peer or full queue), or has been. */
  lemma RejectOk(s: State, p: Pkt, stage: Stage, l: Ledger)
    requires Core(s) && (p in s.stage ==> s.stage[p].Entered? || s.stage[p].Refused?)
    requires Leaves(stage) && EntryOk(stage, l, false)
    ensures Core(SetStage(s, p, stage).(ledger := s.ledger[p := l]))
  {
    var t := SetStage(s, p, stage).(ledger := s.ledger[p := l]);
    RejectShape(s, t, p);
    RejectBooks(s, p, stage, l);
    OutsiderDrain(s, t, p);
  }

  lemma RejectShape(s: State, t: State, p: Pkt)
    requires Shape(s) && (p in s.stage ==> s.stage[p].Entered? || s.stage[p].Refused?)
    requires t == s.(stage := t.stage, ledger := t.ledger) && p in t.stage && Leaves(t.stage[p])
    requires t.stage == s.stage[p := t.stage[p]]
    ensures Shape(t)
  {
    ListFrame(s, t);
    PollFrame(s, t);
  }

  /** A packet that entered is turned away with what it has taken. */
  lemma RefuseOk(s: State, p: Pkt)
    requires Core(s) && At(s, p, Entered)
    ensures Core(SetStage(s, p, Refused(true, true)))
  {
    Stranger(s, p);
    assert EntryOk(Entered, s.ledger[p], false);
    assert s.ledger[p := s.ledger[p]] == s.ledger;
    RejectOk(s, p, Refused(true, true), s.ledger[p]);
  }

  lemma DiscardOk(s: State, p: Pkt)
    requires Core(s) && Enabled(s, Discard(p))
    ensures Core(Discarded(s, p))
  {
    Stranger(s, p);
    assert EntryOk(s.stage[p], s.ledger[p], P(p) in s.h.gone);
    RejectOk(s, p, Rejected, PutSome(s.ledger[p], s.stage[p].keypair, s.stage[p].peer));
  }

  lemma ReserveCount(s: State, p: Pkt)
    requires OrderOk(s) && MembersOk(s.h.order, s.stage) && CountOk(s)
    requires Enabled(s, Reserve(p)) && s.q.count != MAX_QUEUED_PACKETS
    ensures CountOk(Move(s, Reserve(p)))
  {
    Stranger(s, p);
    if s.poll.Decrement? { HeldInQueue(s, s.poll.t); }
    OneMore(s.stage, s.h.chain, s.poll, p);
  }

  lemma OneMore(stage: map<Pkt, Stage>, chain: seq<Node>, poll: Poll, p: Pkt)
    requires !InCount(stage, chain, poll, p)
    ensures |Counted(stage[p := Reserved], chain, poll)| == |Counted(stage, chain, poll)| + 1
  {
    var before, after := Counted(stage, chain, poll), Counted(stage[p := Reserved], chain, poll);
    assert p !in before;
    forall x
      ensures x in after <==> x in before + {p}
    {
      if x != p { assert InCount(stage[p := Reserved], chain, poll, x) <==> InCount(stage, chain, poll, x); }
    }
    assert after == before + {p};
  }

  lemma ReserveBooks(s: State, p: Pkt)
    requires Books(s) && Enabled(s, Reserve(p)) && s.q.count != MAX_QUEUED_PACKETS
    ensures Books(Move(s, Reserve(p)))
  {
    OutsiderMembers(s, p, Reserved);
    ReserveCount(s, p);
  }

  lemma ReserveOk(s: State, p: Pkt)
    requires Core(s) && Enabled(s, Reserve(p))
    ensures Core(Move(s, Reserve(p)))
  {
    if s.q.count == MAX_QUEUED_PACKETS {
      RefuseOk(s, p);
    } else {
      ReserveShape(s, p);
      ReserveBooks(s, p);
      ReserveDrain(s, p);
    }
  }

  lemma ReserveDrain(s: State, p: Pkt)
    requires OrderOk(s) && MembersOk(s.h.order, s.stage) && DrainOk(s) && At(s, p, Entered)
    ensures DrainOk(TryReserve(s, p))
  {
    OutsiderDrain(s, TryReserve(s, p), p);
  }

  lemma ReserveShape(s: State, p: Pkt)
    requires Shape(s) && At(s, p, Entered) && s.q.count != MAX_QUEUED_PACKETS
    ensures Shape(TryReserve(s, p))
  {
    var t := TryReserve(s, p);
    assert SameWriters(s.stage, t.stage);
    ListFrame(s, t);
    PollFrame(s, t);
  }

  /** A packet in the queue moves on, on the same side of the store of its state. */
  lemma OwnStage(stage: map<Pkt, Stage>, word: map<Pkt, PacketState>, order: seq<Node>, gone: seq<Node>, p: Pkt,
                 st: Stage)
    requires MembersOk(order, stage) && WordsOk(stage, word, gone) && p in stage && HasEntered(stage[p])
    requires HasEntered(st) && (Early(st) <==> Early(stage[p])) && (st.Decided? ==> st.verdict != Uncrypted)
    requires st.SawTail? ==> st.tail.Stub? || st.tail in order
    ensures MembersOk(order, stage[p := st]) && WordsOk(stage[p := st], word, gone)
  {
  }

  lemma EarlyBooks(s: State, p: Pkt, stage: Stage)
    requires Books(s) && p in s.stage && (s.stage[p].Linked? || s.stage[p].Ringed?)
    requires stage.Ringed? || (stage.Decided? && stage.verdict != Uncrypted)
    ensures Books(SetStage(s, p, stage))
  {
    CountSame(s, p, stage);
    OwnStage(s.stage, s.word, s.h.order, s.h.gone, p, stage);
    OwnLedger(s.stage, s.ledger, s.h.gone, p, stage, s.ledger[p]);
    assert s.ledger[p := s.ledger[p]] == s.ledger;
  }

  /** A step from one early stage to another, behind the link. */
  lemma EarlyStepOk(s: State, p: Pkt, stage: Stage)
    requires Core(s) && p in s.stage && (s.stage[p].Linked? || s.stage[p].Ringed?)
    requires stage.Ringed? || (stage.Decided? && stage.verdict != Uncrypted)
    ensures Core(SetStage(s, p, stage))
  {
    var t := SetStage(s, p, stage);
    MoveStage(s, p, stage);
    EarlyBooks(s, p, stage);
    HopeFrame(s, t, p);
    DrainFrame(s, t);
  }

  lemma StoreBooks(s: State, p: Pkt)
    requires Books(s) && Enabled(s, Store(p))
    ensures Books(Move(s, Store(p)))
  {
    CountSame(s, p, Stored);
    OwnLedger(s.stage, s.ledger, s.h.gone, p, Stored, GetPeer(s.ledger[p]));
  }

  /** A packet's own entry changes with its stage. */
  lemma OwnLedger(stage: map<Pkt, Stage>, ledger: map<Pkt, Ledger>, gone: seq<Node>, p: Pkt, st: Stage, l: Ledger)
    requires LedgerOk(stage, ledger, gone) && EntryOk(st, l, P(p) in gone)
    ensures LedgerOk(stage[p := st], ledger[p := l], gone)
  {
  }

  lemma StoreOk(s: State, p: Pkt)
    requires Core(s) && Enabled(s, Store(p))
    ensures Core(Move(s, Store(p)))
  {
    StoreShape(s, p);
    StoreBooks(s, p);
    StoreDrain(s, p);
  }

  lemma StoreShape(s: State, p: Pkt)
    requires Shape(s) && Books(s) && Enabled(s, Store(p))
    ensures Shape(Move(s, Store(p)))
  {
    ListFrame(s, Move(s, Store(p)));
    PollFrame(s, Move(s, Store(p)));
  }

  lemma StoreDrain(s: State, p: Pkt)
    requires Books(s) && DrainOk(s) && Enabled(s, Store(p))
    ensures DrainOk(Move(s, Store(p)))
  {
    HopeFrame(s, Move(s, Store(p)), p);
    DrainFrame(s, Move(s, Store(p)));
  }

  /** Late stages differ only in who will schedule the poll. */
  lemma LateBooks(s: State, p: Pkt, tail: Node)
    requires Books(s) && p in s.stage && s.stage[p].Stored? && (tail.Stub? || tail in s.h.order)
    ensures Books(SetStage(s, p, SawTail(tail)))
  {
    CountSame(s, p, SawTail(tail));
    OwnStage(s.stage, s.word, s.h.order, s.h.gone, p, SawTail(tail));
    OwnLedger(s.stage, s.ledger, s.h.gone, p, SawTail(tail), s.ledger[p]);
    assert s.ledger[p := s.ledger[p]] == s.ledger;
  }

  lemma WokeBooks(s: State, p: Pkt)
    requires Books(s) && p in s.stage && (s.stage[p].Stored? || s.stage[p].SawTail?)
    ensures Books(Woke(s, p))
  {
    CountSame(s, p, Woken);
    OwnStage(s.stage, s.word, s.h.order, s.h.gone, p, Woken);
    assert EntryOk(s.stage[p], s.ledger[p], P(p) in s.h.gone);
    OwnLedger(s.stage, s.ledger, s.h.gone, p, Woken, PutPeer(s.ledger[p]));
  }

  lemma WokeShape(s: State, p: Pkt)
    requires Shape(s) && p in s.stage && (s.stage[p].Stored? || s.stage[p].SawTail?)
    ensures Shape(Woke(s, p))
  {
    ListFrame(s, Woke(s, p));
    PollFrame(s, Woke(s, p));
  }

  /** napi_schedule() changes nothing but the two bits. */
  lemma ScheduleKeeps(s: State)
    requires Shape(s) && Books(s)
    ensures Shape(Schedule(s)) && Books(Schedule(s))
  {
    ListFrame(s, Schedule(s));
    PollFrame(s, Schedule(s));
  }

  lemma WakeOk(s: State, p: Pkt)
    requires Core(s) && p in s.stage && (s.stage[p].Stored? || s.stage[p].SawTail?)
    ensures Core(Woke(Schedule(s), p))
  {
    ScheduleKeeps(s);
    WokeShape(Schedule(s), p);
    WokeBooks(Schedule(s), p);
    DrainFrame(s, Woke(Schedule(s), p));
  }

  lemma ReadTailOk(s: State, p: Pkt)
    requires Core(s) && Enabled(s, ReadTail(p))
    ensures Core(Move(s, ReadTail(p)))
  {
    var t := Move(s, ReadTail(p));
    if s.q.tail.P? {
      ChainInQueue(s, s.q.tail);
    }
    MoveStage(s, p, SawTail(s.q.tail));
    LateBooks(s, p, s.q.tail);
    ReadTailDrain(s, p);
  }

  lemma ReadTailDrain(s: State, p: Pkt)
    requires Shape(s) && Books(s) && DrainOk(s) && Enabled(s, ReadTail(p))
    ensures DrainOk(Move(s, ReadTail(p)))
  {
    if s.q.tail.P? { ChainInQueue(s, s.q.tail); }
    HopeFrame(s, Move(s, ReadTail(p)), p);
    DrainFrame(s, Move(s, ReadTail(p)));
  }

  /** The guard skips the wake only when the tail it read leaves hope behind. */
  lemma SkipKeepsHope(s: State, p: Pkt, read: PacketState)
    requires Books(s) && Enabled(s, Decide(p, read)) && s.stage[p].tail.P? && read == Uncrypted
    ensures SomeHopeful(s) ==> SomeHopeful(Woke(s, p))
  {
    var t := Woke(s, p);
    var tail := s.stage[p].tail;
    if SomeHopeful(s) {
      if tail in s.h.gone {
        var x :| x in s.stage && Hopeful(s, x);
        assert x != p;
        assert Hopeful(t, x);
      } else {
        assert tail.pkt in s.stage && Early(s.stage[tail.pkt]);
        assert Hopeful(t, tail.pkt);
      }
    }
  }

  lemma DecideOk(s: State, p: Pkt, read: PacketState)
    requires Core(s) && Enabled(s, Decide(p, read))
    ensures Core(Move(s, Decide(p, read)))
  {
    if s.stage[p].tail.Stub? || read != Uncrypted {
      WakeOk(s, p);
    } else {
      WokeShape(s, p);
      WokeBooks(s, p);
      SkipKeepsHope(s, p, read);
      DrainFrame(s, Woke(s, p));
    }
  }

  // ----- the producer's three list steps -----

  /** A next pointer outside the list is cleared. */
  lemma ClearLinks(chain: seq<Node>, next: map<Node, Option<Node>>, stage: map<Pkt, Stage>, poll: Poll, n: Node,
                   stage2: map<Pkt, Stage>)
    requires n !in chain && LinksOk(chain, next, stage, poll)
    requires forall p :: p in stage && stage[p].Exchanged? ==> p in stage2 && stage2[p] == stage[p]
    ensures LinksOk(chain, next[n := None], stage2, poll)
    ensures forall a, b :: InPlace(chain, next, a, b) ==> InPlace(chain, next[n := None], a, b)
  {
    var next2 := next[n := None];
    forall i | 0 <= i < |chain| - 1
      ensures LinkAt(chain[i], chain[i + 1], next2, stage2, poll)
    {
      assert LinkAt(chain[i], chain[i + 1], next, stage, poll);
    }
    forall a, b | InPlace(chain, next, a, b)
      ensures InPlace(chain, next2, a, b)
    {
      var i :| 0 <= i < |chain| - 1 && chain[i] == a && chain[i + 1] == b && a in next && next[a] == None;
      assert chain[i] in chain;
    }
  }

  lemma NullNextShape(s: State, p: Pkt)
    requires Shape(s) && OrderOk(s) && MembersOk(s.h.order, s.stage) && Enabled(s, NullNext(p))
    ensures Shape(Move(s, NullNext(p)))
  {
    Stranger(s, p);
    ClearLinks(s.h.chain, s.q.next, s.stage, s.poll, P(p), Move(s, NullNext(p)).stage);
  }

  lemma NullNextBooks(s: State, p: Pkt)
    requires Books(s) && Enabled(s, NullNext(p))
    ensures Books(Move(s, NullNext(p)))
  {
    Stranger(s, p);
    OutsiderMembers(s, p, Nulled);
    CountSame(s, p, Nulled);
  }

  lemma NullNextOk(s: State, p: Pkt)
    requires Core(s) && Enabled(s, NullNext(p))
    ensures Core(Move(s, NullNext(p)))
  {
    NullNextShape(s, p);
    NullNextBooks(s, p);
    OutsiderDrain(s, Move(s, NullNext(p)), p);
  }

  /** Appending a node whose next is NULL and whose link is still unwritten. */
  lemma AppendLinks(chain: seq<Node>, next: map<Node, Option<Node>>, stage: map<Pkt, Stage>, poll: Poll, n: Node,
                    stage2: map<Pkt, Stage>, poll2: Poll)
    requires chain != [] && Distinct(chain) && n !in chain && n in next && next[n] == None
    requires LinksOk(chain, next, stage, poll)
    requires Pending(chain[|chain| - 1], n, stage2, poll2)
    requires forall a, b :: b in chain && Pending(a, b, stage, poll) ==> Pending(a, b, stage2, poll2)
    ensures Distinct(chain + [n]) && LinksOk(chain + [n], next, stage2, poll2)
    ensures InPlace(chain + [n], next, chain[|chain| - 1], n)
    ensures forall a, b :: InPlace(chain, next, a, b) ==> InPlace(chain + [n], next, a, b)
  {
    var c := chain + [n];
    forall i | 0 <= i < |c| - 1
      ensures LinkAt(c[i], c[i + 1], next, stage2, poll2)
    {
      if i < |chain| - 1 {
        assert LinkAt(chain[i], chain[i + 1], next, stage, poll);
        assert chain[i + 1] in chain;
      }
    }
    assert c[|chain| - 1] == chain[|chain| - 1] && c[|chain| - 1 + 1] == n;
    forall a, b | InPlace(chain, next, a, b)
      ensures InPlace(c, next, a, b)
    {
      var i :| 0 <= i < |chain| - 1 && chain[i] == a && chain[i + 1] == b && a in next && next[a] == None;
      assert c[i] == a && c[i + 1] == b;
    }
  }

  lemma ExchangeList(s: State, p: Pkt)
    requires ListOk(s) && Enabled(s, Exchange(p)) && P(p) !in s.h.chain
    ensures ListOk(Move(s, Exchange(p)))
  {
    var t := Move(s, Exchange(p));
    AppendLinks(s.h.chain, s.q.next, s.stage, s.poll, P(p), t.stage, t.poll);
    forall x | x in t.stage && t.stage[x].Exchanged?
      ensures InPlace(t.h.chain, t.q.next, t.stage[x].prev, P(x))
    {
      if x != p { assert InPlace(s.h.chain, s.q.next, s.stage[x].prev, P(x)); }
    }
  }

  lemma ExchangeBooks(s: State, p: Pkt)
    requires Books(s) && Enabled(s, Exchange(p))
    ensures Books(Move(s, Exchange(p)))
  {
    var t := Move(s, Exchange(p));
    PacketsAppend(s.h.chain, P(p));
    assert t.h.order == t.h.out + Packets(t.h.chain);
    ExchangeMembers(s, p);
    ExchangeCount(s, p);
    ExchangeLedger(s, p);
  }

  lemma ExchangeMembers(s: State, p: Pkt)
    requires OrderOk(s) && MembersOk(s.h.order, s.stage) && Enabled(s, Exchange(p))
    ensures MembersOk(s.h.order + [P(p)], s.stage[p := Exchanged(s.q.head)])
  {
    Stranger(s, p);
  }

  lemma ExchangeLedger(s: State, p: Pkt)
    requires WordsOk(s.stage, s.word, s.h.gone) && LedgerOk(s.stage, s.ledger, s.h.gone) && Enabled(s, Exchange(p))
    ensures var stage := s.stage[p := Exchanged(s.q.head)];
            WordsOk(stage, s.word, s.h.gone) && LedgerOk(stage, s.ledger, s.h.gone)
  {
  }

  lemma ExchangeCount(s: State, p: Pkt)
    requires CountOk(s) && Enabled(s, Exchange(p))
    ensures CountOk(Move(s, Exchange(p)))
  {
    var t := Move(s, Exchange(p));
    forall x
      ensures InCount(t.stage, t.h.chain, t.poll, x) <==> InCount(s.stage, s.h.chain, s.poll, x)
    {
    }
    assert Counted(t.stage, t.h.chain, t.poll) == Counted(s.stage, s.h.chain, s.poll);
  }

  lemma ExchangeDrain(s: State, p: Pkt)
    requires DrainOk(s) && OrderOk(s) && MembersOk(s.h.order, s.stage) && Enabled(s, Exchange(p))
    ensures DrainOk(Move(s, Exchange(p)))
  {
    var t := Move(s, Exchange(p));
    Stranger(s, p);
    assert P(p) in t.h.order;
    assert Hopeful(t, p);
  }

  lemma ExchangeOk(s: State, p: Pkt)
    requires Core(s) && Enabled(s, Exchange(p))
    ensures Core(Move(s, Exchange(p)))
  {
    Stranger(s, p);
    ExchangeList(s, p);
    ExchangeBooks(s, p);
    ExchangeDrain(s, p);
  }

  /** Writing a -> b where it was pending. */
  lemma WriteLink(chain: seq<Node>, next: map<Node, Option<Node>>, stage: map<Pkt, Stage>, poll: Poll, a: Node, b: Node,
                  stage2: map<Pkt, Stage>, poll2: Poll)
    requires Distinct(chain) && LinksOk(chain, next, stage, poll) && InPlace(chain, next, a, b)
    requires forall x, y :: y != b && Pending(x, y, stage, poll) ==> Pending(x, y, stage2, poll2)
    ensures LinksOk(chain, next[a := Some(b)], stage2, poll2)
    ensures forall x, y :: y != b && InPlace(chain, next, x, y) ==> InPlace(chain, next[a := Some(b)], x, y)
    ensures a in chain && NextAfter(chain, a, b)
  {
    var k :| 0 <= k < |chain| - 1 && chain[k] == a && chain[k + 1] == b && a in next && next[a] == None;
    var next2 := next[a := Some(b)];
    forall i | 0 <= i < |chain| - 1
      ensures LinkAt(chain[i], chain[i + 1], next2, stage2, poll2)
    {
      assert LinkAt(chain[i], chain[i + 1], next, stage, poll);
      if i != k { assert chain[i] != a && chain[i + 1] != b; }
    }
    forall x, y | y != b && InPlace(chain, next, x, y)
      ensures InPlace(chain, next2, x, y)
    {
      var i :| 0 <= i < |chain| - 1 && chain[i] == x && chain[i + 1] == y && x in next && next[x] == None;
      assert i != k;
    }
  }

  predicate NextAfter(chain: seq<Node>, a: Node, b: Node) {
    exists i :: 0 <= i < |chain| - 1 && chain[i] == a && chain[i + 1] == b
  }

  lemma LinkList(s: State, p: Pkt)
    requires ListOk(s) && Enabled(s, Link(p)) && OrderOk(s) && MembersOk(s.h.order, s.stage)
    requires s.poll.StubXchg? ==> Stub !in s.h.chain
    ensures ListOk(Move(s, Link(p)))
    ensures s.stage[p].prev in s.h.chain
  {
    var t := Move(s, Link(p));
    var a := s.stage[p].prev;
    assert InPlace(s.h.chain, s.q.next, a, P(p));
    WriteLink(s.h.chain, s.q.next, s.stage, s.poll, a, P(p), t.stage, t.poll);
    forall x | x in t.stage && t.stage[x].Exchanged?
      ensures InPlace(t.h.chain, t.q.next, t.stage[x].prev, P(x))
    {
      assert InPlace(s.h.chain, s.q.next, s.stage[x].prev, P(x));
    }
    forall x | x in t.stage && t.stage[x].Nulled?
      ensures P(x) != a
    {
      Stranger(s, x);
    }
  }

  lemma LinkBooks(s: State, p: Pkt)
    requires Books(s) && Enabled(s, Link(p))
    ensures Books(Move(s, Link(p)))
  {
    CountSame(s, p, Linked);
    OwnStage(s.stage, s.word, s.h.order, s.h.gone, p, Linked);
    OwnLedger(s.stage, s.ledger, s.h.gone, p, Linked, s.ledger[p]);
    assert s.ledger[p := s.ledger[p]] == s.ledger;
  }

  lemma LinkOk(s: State, p: Pkt)
    requires Core(s) && Enabled(s, Link(p))
    ensures Core(Move(s, Link(p)))
  {
    LinkShape(s, p);
    LinkBooks(s, p);
    LinkDrain(s, p);
  }

  lemma LinkKeeps(s: State, p: Pkt)
    requires ListOk(s) && Enabled(s, Link(p))
    ensures forall n :: NextOf(s.q, n).Some? ==> NextOf(Move(s, Link(p)).q, n) == NextOf(s.q, n)
  {
    assert InPlace(s.h.chain, s.q.next, s.stage[p].prev, P(p));
  }

  lemma LinkShape(s: State, p: Pkt)
    requires Shape(s) && OrderOk(s) && MembersOk(s.h.order, s.stage) && Enabled(s, Link(p))
    ensures Shape(Move(s, Link(p)))
  {
    LinkList(s, p);
    LinkKeeps(s, p);
  }

  lemma LinkDrain(s: State, p: Pkt)
    requires DrainOk(s) && Enabled(s, Link(p))
    ensures DrainOk(Move(s, Link(p)))
  {
    var t := Move(s, Link(p));
    HopeFrame(s, t, p);
    DrainFrame(s, t);
  }

  // ----- the poll -----

  predicate OnlyPoll(s: State, t: State) {
    && t.q == s.q && t.stage == s.stage && t.word == s.word && t.ledger == s.ledger
    && t.h == s.h.(gap := t.h.gap)
  }

  /** The poll moves between points that own no list write. */
  lemma PollMoves(s: State, t: State)
    requires ListOk(s) && Books(s) && OnlyPoll(s, t)
    requires !s.poll.StubLink? && !t.poll.StubLink? && !t.poll.StubXchg?
    requires !s.poll.Decrement? && !t.poll.Decrement?
    ensures ListOk(t) && Books(t)
  {
    assert Counted(t.stage, t.h.chain, t.poll) == Counted(s.stage, s.h.chain, s.poll);
  }

  /** The poll goes on, so nothing needs to be promised about waking it. */
  lemma PollGoesOn(s: State, t: State)
    requires Core(s) && s.sched && t.sched && PollOk(t) && OnlyPoll(s, t)
    requires !s.poll.StubLink? && !t.poll.StubLink? && !t.poll.StubXchg?
    requires !s.poll.Decrement? && !t.poll.Decrement?
    requires !t.poll.Stop? && !t.poll.CheckHead?
    ensures Core(t)
  {
    PollMoves(s, t);
  }

  /** The node behind the tail, when its link is not written, is a packet still on its way. */
  lemma GapIsHope(s: State)
    requires ListOk(s) && OrderOk(s) && MembersOk(s.h.order, s.stage) && !s.poll.StubLink?
    requires NextOf(s.q, s.q.tail).None? && |s.h.chain| > 1
    ensures SomeHopeful(s) && MidLink(s)
  {
    assert LinkAt(s.h.chain[0], s.h.chain[0 + 1], s.q.next, s.stage, s.poll);
    var n := s.h.chain[1];
    ChainInQueue(s, n);
    assert Hopeful(s, n.pkt);
  }

  lemma LonelyTail(s: State)
    requires ListOk(s) && OrderOk(s) && |s.h.chain| == 1 && s.q.tail.Stub? && Held(s) == []
    ensures Drained(s) && NoPackets(s)
  {
    assert s.h.chain == [Stub];
    assert s.h.chain[1..] == [];
    assert Packets(s.h.chain) == [];
    assert s.h.out == s.h.gone;
  }

  lemma SameHope(s: State, t: State)
    requires t.stage == s.stage && t.h.order == s.h.order && t.h.gone == s.h.gone && t.h.chain == s.h.chain
    ensures SomeHopeful(s) <==> SomeHopeful(t)
    ensures Drained(s) <==> Drained(t)
    ensures MidLink(s) <==> MidLink(t)
    ensures NoPackets(s) <==> NoPackets(t)
  {
    if SomeHopeful(s) {
      var p :| p in s.stage && Hopeful(s, p);
      assert Hopeful(t, p);
    }
    if SomeHopeful(t) {
      var p :| p in t.stage && Hopeful(t, p);
      assert Hopeful(s, p);
    }
  }

  /** A load of a NULL next pointer is explained by a packet on its way or a short list. */
  lemma EmptyLoad(s: State)
    requires ListOk(s) && OrderOk(s) && MembersOk(s.h.order, s.stage) && Dequeueing(s.poll) && s.q.peeked.None?
    requires NextOf(s.q, s.q.tail).None? && !s.poll.StubLink? && !s.poll.Decrement?
    ensures (SomeHopeful(s) && MidLink(s)) || (s.q.tail.Stub? && Drained(s) && NoPackets(s)) || s.h.chain == [s.q.tail]
    ensures s.q.tail.Stub? || |s.h.chain| > 1 ==> (SomeHopeful(s) && MidLink(s)) || (Drained(s) && NoPackets(s))
  {
    if |s.h.chain| > 1 {
      GapIsHope(s);
    } else if s.q.tail.Stub? {
      LonelyTail(s);
    }
  }

  lemma LoadPoll(s: State)
    requires Shape(s) && (s.poll.LoadFirst? || s.poll.LoadSecond? || s.poll.LoadThird?)
    ensures PollOk(Advance(s, true))
  {
  }

  lemma LoadDrain(s: State)
    requires Shape(s) && OrderOk(s) && MembersOk(s.h.order, s.stage)
    requires s.poll.LoadFirst? || s.poll.LoadSecond? || s.poll.LoadThird?
    ensures DrainOk(Advance(s, true))
  {
    SameHope(s, Advance(s, true));
    if NextOf(s.q, s.q.tail).None? { EmptyLoad(s); }
  }

  lemma LoadOk(s: State)
    requires Core(s) && (s.poll.LoadFirst? || s.poll.LoadSecond? || s.poll.LoadThird?)
    ensures Core(Advance(s, true)) && Advance(s, false) == Advance(s, true)
  {
    PollMoves(s, Advance(s, true));
    LoadPoll(s);
    LoadDrain(s);
  }

  lemma {:induction false} PacketsRest(chain: seq<Node>)
    requires chain != []
    ensures Packets(chain) == (if chain[0].Stub? then [] else [chain[0]]) + Packets(chain[1..])
  {
  }

  /** Dropping the first node of the chain, once its link is written. */
  lemma DropFirst(chain: seq<Node>, next: map<Node, Option<Node>>, stage: map<Pkt, Stage>, poll: Poll, poll2: Poll)
    requires chain != [] && Distinct(chain) && LinksOk(chain, next, stage, poll) && WritersOk(chain, next, stage, poll)
    requires chain[0] in next && next[chain[0]].Some?
    requires !poll.StubLink? && !poll2.StubLink? && !poll2.StubXchg?
    ensures |chain| > 1 && next[chain[0]] == Some(chain[1])
    ensures Distinct(chain[1..]) && LinksOk(chain[1..], next, stage, poll2) && WritersOk(chain[1..], next, stage, poll2)
  {
    assert next[chain[|chain| - 1]] == None;
    assert LinkAt(chain[0], chain[0 + 1], next, stage, poll);
    var c := chain[1..];
    forall i | 0 <= i < |c| - 1
      ensures LinkAt(c[i], c[i + 1], next, stage, poll2)
    {
      assert LinkAt(chain[i + 1], chain[i + 1 + 1], next, stage, poll);
    }
    forall p | p in stage && stage[p].Exchanged?
      ensures InPlace(c, next, stage[p].prev, P(p))
    {
      assert InPlace(chain, next, stage[p].prev, P(p));
      var i :| 0 <= i < |chain| - 1 && chain[i] == stage[p].prev && chain[i + 1] == P(p)
               && stage[p].prev in next && next[stage[p].prev] == None;
      assert i > 0;
      assert c[i - 1] == stage[p].prev && c[i - 1 + 1] == P(p);
    }
  }

  lemma StoreFirstBooks(s: State)
    requires Books(s) && s.poll.StoreFirst? && s.h.chain != [] && s.h.chain[0].Stub?
    ensures Books(Advance(s, true))
  {
    var t := Advance(s, true);
    PacketsRest(s.h.chain);
    forall p
      ensures P(p) in t.h.chain <==> P(p) in s.h.chain
    {
      assert s.h.chain == [s.h.chain[0]] + t.h.chain;
    }
    assert Counted(t.stage, t.h.chain, t.poll) == Counted(s.stage, s.h.chain, s.poll);
  }

  lemma StoreFirstOk(s: State)
    requires Core(s) && s.poll.StoreFirst?
    ensures Core(Advance(s, true)) && Advance(s, false) == Advance(s, true)
  {
    DropFirst(s.h.chain, s.q.next, s.stage, s.poll, LoadSecond(s.poll.n));
    assert s.h.chain[1] != s.h.chain[0];
    StoreFirstBooks(s);
  }

  lemma StoreTailBooks(s: State)
    requires Books(s) && s.poll.StoreTail? && s.h.chain != [] && s.h.chain[0] == s.poll.t && s.poll.t.P?
    requires s.q.peeked.None?
    requires Distinct(s.h.chain)
    ensures Books(Advance(s, true))
  {
    var t := Advance(s, true);
    PacketsRest(s.h.chain);
    assert s.h.chain == [s.poll.t] + t.h.chain;
    forall p
      ensures InCount(t.stage, t.h.chain, t.poll, p) <==> InCount(s.stage, s.h.chain, s.poll, p)
    {
    }
    assert Counted(t.stage, t.h.chain, t.poll) == Counted(s.stage, s.h.chain, s.poll);
    assert t.h.order == t.h.out + Packets(t.h.chain);
  }

  lemma StoreTailOk(s: State)
    requires Core(s) && s.poll.StoreTail?
    ensures Core(Advance(s, true)) && Advance(s, false) == Advance(s, true)
  {
    DropFirst(s.h.chain, s.q.next, s.stage, s.poll, Decrement(s.poll.t));
    StoreTailBooks(s);
  }

  lemma DecrementBooks(s: State)
    requires Books(s) && s.poll.Decrement?
    ensures Books(Advance(s, true))
  {
    DecrementCount(s);
  }

  lemma DecrementCount(s: State)
    requires OrderOk(s) && MembersOk(s.h.order, s.stage) && CountOk(s) && s.poll.Decrement?
    ensures CountOk(Advance(s, true))
  {
    HeldInQueue(s, s.poll.t);
    HeldNotInChain(s);
    var t, p := Advance(s, true), s.poll.t.pkt;
    assert p in Counted(s.stage, s.h.chain, s.poll);
    assert Counted(t.stage, t.h.chain, t.poll) == Counted(s.stage, s.h.chain, s.poll) - {p};
  }

  lemma HeldNotInChain(s: State)
    requires OrderOk(s) && MembersOk(s.h.order, s.stage) && s.poll.Decrement?
    ensures s.poll.t !in s.h.chain
  {
    var n := s.poll.t;
    HeldInQueue(s, n);
    PacketIn(s.h.chain, n);
    assert s.h.order[|s.h.gone|] == n;
    forall i | 0 <= i < |Packets(s.h.chain)|
      ensures Packets(s.h.chain)[i] != n
    {
      assert s.h.order[|s.h.out| + i] == Packets(s.h.chain)[i];
    }
  }

  lemma DecrementOk(s: State)
    requires Core(s) && s.poll.Decrement?
    ensures Core(Advance(s, true)) && Advance(s, false) == Advance(s, true)
  {
    DecrementBooks(s);
  }

  lemma CheckHeadOk(s: State)
    requires Core(s) && s.poll.CheckHead?
    ensures Core(Advance(s, true)) && Advance(s, false) == Advance(s, true)
  {
    var t := Advance(s, true);
    PollMoves(s, t);
    SameHope(s, t);
    if |s.h.chain| > 1 { assert s.h.chain[0] != s.h.chain[|s.h.chain| - 1]; }
  }

  lemma StubNullShape(s: State)
    requires Shape(s) && s.poll.StubNull?
    ensures Shape(Advance(s, true))
  {
    var t := Advance(s, true);
    forall i | 0 <= i < |t.h.chain| - 1
      ensures LinkAt(t.h.chain[i], t.h.chain[i + 1], t.q.next, t.stage, t.poll)
    {
      assert LinkAt(s.h.chain[i], s.h.chain[i + 1], s.q.next, s.stage, s.poll);
    }
    forall x | x in t.stage && t.stage[x].Exchanged?
      ensures InPlace(t.h.chain, t.q.next, t.stage[x].prev, P(x))
    {
      assert InPlace(s.h.chain, s.q.next, s.stage[x].prev, P(x));
    }
  }

  lemma SameBooks(s: State, t: State)
    requires Books(s) && t.stage == s.stage && t.word == s.word && t.ledger == s.ledger && t.h == s.h
    requires t.q.count == s.q.count && t.q.peeked == s.q.peeked && !s.poll.Decrement? && !t.poll.Decrement?
    ensures Books(t)
  {
    assert Counted(t.stage, t.h.chain, t.poll) == Counted(s.stage, s.h.chain, s.poll);
  }

  lemma StubNullOk(s: State)
    requires Core(s) && s.poll.StubNull?
    ensures Core(Advance(s, true)) && Advance(s, false) == Advance(s, true)
  {
    StubNullShape(s);
    SameBooks(s, Advance(s, true));
  }

  lemma StubXchgShape(s: State)
    requires Shape(s) && s.poll.StubXchg?
    ensures Shape(Advance(s, true))
  {
    var t := Advance(s, true);
    AppendLinks(s.h.chain, s.q.next, s.stage, s.poll, Stub, t.stage, t.poll);
  }

  lemma StubXchgBooks(s: State)
    requires Books(s) && s.poll.StubXchg?
    ensures Books(Advance(s, true))
  {
    var t := Advance(s, true);
    PacketsAppend(s.h.chain, Stub);
    forall p
      ensures P(p) in t.h.chain <==> P(p) in s.h.chain
    {
    }
    assert Counted(t.stage, t.h.chain, t.poll) == Counted(s.stage, s.h.chain, s.poll);
  }

  lemma StubXchgOk(s: State)
    requires Core(s) && s.poll.StubXchg?
    ensures Core(Advance(s, true)) && Advance(s, false) == Advance(s, true)
  {
    StubXchgShape(s);
    StubXchgBooks(s);
  }

  lemma StubLinkShape(s: State)
    requires Shape(s) && s.poll.StubLink? && OrderOk(s) && MembersOk(s.h.order, s.stage)
    ensures Shape(Advance(s, true))
  {
    var t := Advance(s, true);
    assert InPlace(s.h.chain, s.q.next, s.poll.prev, Stub);
    WriteLink(s.h.chain, s.q.next, s.stage, s.poll, s.poll.prev, Stub, t.stage, t.poll);
    forall x | x in t.stage && t.stage[x].Exchanged?
      ensures InPlace(t.h.chain, t.q.next, t.stage[x].prev, P(x))
    {
      assert InPlace(s.h.chain, s.q.next, s.stage[x].prev, P(x));
    }
    forall x | x in t.stage && t.stage[x].Nulled?
      ensures P(x) != s.poll.prev
    {
      Stranger(s, x);
    }
  }

  lemma StubLinkOk(s: State)
    requires Core(s) && s.poll.StubLink?
    ensures Core(Advance(s, true)) && Advance(s, false) == Advance(s, true)
  {
    StubLinkShape(s);
    SameBooks(s, Advance(s, true));
  }

  lemma CheckStateOk(s: State)
    requires Core(s) && s.poll.CheckState?
    ensures Core(Advance(s, true)) && Advance(s, false) == Advance(s, true)
  {
    var t := Advance(s, true);
    PollMoves(s, t);
    HeldInQueue(s, s.poll.t);
    if WordOf(s, s.poll.t) == Uncrypted {
      assert s.poll.t.pkt in s.stage;
      assert Hopeful(t, s.poll.t.pkt);
    }
  }

  lemma DisposeBooks(s: State, more: bool)
    requires Books(s) && s.poll.Dispose? && s.q.peeked == Some(s.poll.t) && WordOf(s, s.poll.t) != Uncrypted
    ensures Books(Advance(s, more))
  {
    var t := Advance(s, more);
    HeldInQueue(s, s.poll.t);
    assert t.h.gone + Held(t) == s.h.out;
    assert Counted(t.stage, t.h.chain, t.poll) == Counted(s.stage, s.h.chain, s.poll);
    DisposeWords(s, more);
  }

  lemma DisposeWords(s: State, more: bool)
    requires WordsOk(s.stage, s.word, s.h.gone) && LedgerOk(s.stage, s.ledger, s.h.gone)
    requires MembersOk(s.h.order, s.stage)
    requires s.poll.Dispose? && InQueue(s, s.poll.t) && s.poll.t.P? && WordOf(s, s.poll.t) != Uncrypted
    ensures WordsOk(s.stage, s.word, s.h.gone + [s.poll.t])
    ensures LedgerOk(s.stage, Advance(s, more).ledger, s.h.gone + [s.poll.t])
  {
    var p := s.poll.t.pkt;
    assert p in s.stage && HasEntered(s.stage[p]);
    assert EntryOk(s.stage[p], s.ledger[p], false);
    DisposeLedger(s.stage, s.ledger, s.h.gone, p);
    assert s.poll.t == P(p);
  }

  /** The packet disposed of has put what it took. */
  lemma DisposeLedger(stage: map<Pkt, Stage>, ledger: map<Pkt, Ledger>, gone: seq<Node>, p: Pkt)
    requires LedgerOk(stage, ledger, gone) && p in stage && EntryOk(stage[p], ledger[p], false) && HasEntered(stage[p])
    ensures LedgerOk(stage, ledger[p := PutAll(ledger[p])], gone + [P(p)])
  {
    forall x | x in stage
      ensures EntryOk(stage[x], ledger[p := PutAll(ledger[p])][x], P(x) in gone + [P(p)])
    {
      assert EntryOk(stage[x], ledger[x], P(x) in gone);
    }
  }

  lemma DisposeOk(s: State, more: bool)
    requires Core(s) && s.poll.Dispose?
    ensures Core(Advance(s, more))
  {
    DisposeBooks(s, more);
  }

  /** napi_complete_done() with nothing missed: nobody is stranded. */
  lemma StopOk(s: State)
    requires Core(s) && s.poll.Stop?
    ensures Core(Advance(s, true)) && Advance(s, false) == Advance(s, true)
  {
    var t := Advance(s, true);
    PollMoves(s, t);
    SameHope(s, t);
  }

  lemma DequeueStepOk(s: State)
    requires Core(s) && Dequeueing(s.poll)
    ensures Core(Advance(s, true)) && Advance(s, false) == Advance(s, true)
  {
    match s.poll
    case LoadFirst => LoadOk(s);
    case StoreFirst(_) => StoreFirstOk(s);
    case LoadSecond(_) => LoadOk(s);
    case StoreTail(_, _) => StoreTailOk(s);
    case Decrement(_) => DecrementOk(s);
    case CheckHead(_) => CheckHeadOk(s);
    case StubNull(_) => StubNullOk(s);
    case StubXchg(_) => StubXchgOk(s);
    case StubLink(_, _) => StubLinkOk(s);
    case LoadThird(_) => LoadOk(s);
  }

  lemma BeginPoll(s: State, more: bool)
    requires PollOk(s) && s.sched && (s.poll.Off? || s.poll.Top?)
    ensures var t := Advance(s, more);
            PollOk(t) && OnlyPoll(s, t) && t.sched && (t.poll.Top? || t.poll.CheckState? || t.poll.LoadFirst?)
  {
  }

  lemma BeginOk(s: State, more: bool)
    requires Core(s) && s.sched && (s.poll.Off? || s.poll.Top?)
    ensures Core(Advance(s, more))
  {
    BeginPoll(s, more);
    PollGoesOn(s, Advance(s, more));
  }

  lemma PollStepOk(s: State, more: bool)
    requires Core(s) && Enabled(s, PollStep(more))
    ensures Core(Advance(s, more))
  {
    if Dequeueing(s.poll) {
      DequeueStepOk(s);
    } else if s.poll.CheckState? {
      CheckStateOk(s);
    } else if s.poll.Dispose? {
      DisposeOk(s, more);
    } else if s.poll.Stop? {
      StopOk(s);
    } else {
      BeginOk(s, more);
    }
  }

  lemma MoveOk(s: State, step: Step)
    requires Core(s) && Enabled(s, step)
    ensures Core(Move(s, step))
  {
    if step.Enter? || step.EnterUnknown? || step.PeerDead? || step.Discard? || step.Reserve? {
      EntryMoveOk(s, step);
    } else {
      QueueMoveOk(s, step);
    }
  }

  /** The steps before a packet has a place in the queue. */
  lemma EntryMoveOk(s: State, step: Step)
    requires Core(s) && Enabled(s, step)
    requires step.Enter? || step.EnterUnknown? || step.PeerDead? || step.Discard? || step.Reserve?
    ensures Core(Move(s, step))
  {
    match step
    case Enter(p) => EnterOk(s, p);
    case EnterUnknown(p, peerFound) =>
      RejectOk(s, p, Refused(false, peerFound), Ledger(if peerFound then 1 else 0, 0, 0, 0, 0));
    case PeerDead(p) => RefuseOk(s, p);
    case Discard(p) => DiscardOk(s, p);
    case Reserve(p) => ReserveOk(s, p);
  }

  lemma QueueMoveOk(s: State, step: Step)
    requires Core(s) && Enabled(s, step)
    requires !(step.Enter? || step.EnterUnknown? || step.PeerDead? || step.Discard? || step.Reserve?)
    ensures Core(Move(s, step))
  {
    match step
    case NullNext(p) => NullNextOk(s, p);
    case Exchange(p) => ExchangeOk(s, p);
    case Link(p) => LinkOk(s, p);
    case Produce(p, ringFull) => EarlyStepOk(s, p, if ringFull then Decided(Dead) else Ringed);
    case Decrypt(p, v) => EarlyStepOk(s, p, Decided(v));
    case Store(p) => StoreOk(s, p);
    case Wake(p) => WakeOk(s, p);
    case ReadTail(p) => ReadTailOk(s, p);
    case Decide(p, read) => DecideOk(s, p, read);
    case PollStep(more) => PollStepOk(s, more);
  }

  lemma ApplyCore(s: State, step: Step)
    requires Core(s) && Enabled(s, step)
    ensures Core(Apply(s, step))
  {
    MoveOk(s, step);
    GapIrrelevant(Move(s, step), Apply(s, step));
  }

  lemma GapIrrelevant(s: State, t: State)
    requires Core(s) && t == s.(h := s.h.(gap := t.h.gap))
    ensures Core(t)
  {
    ListFrame(s, t);
    PollFrame(s, t);
    SameHope(s, t);
    assert Counted(t.stage, t.h.chain, t.poll) == Counted(s.stage, s.h.chain, s.poll);
  }

  /** Only producers and the poll itself touch the chain. */
  lemma ChainGrows(s: State, step: Step)
    requires Enabled(s, step) && !step.PollStep?
    ensures Move(s, step).poll == s.poll && (s.h.gap ==> Move(s, step).h.gap)
    ensures Move(s, step).h.chain == s.h.chain || (step.Exchange? && MidLink(Move(s, step)))
  {
    if step.Exchange? {
      assert Move(s, step).stage[step.p].Exchanged?;
    }
  }

  lemma StoresPass(s: State, more: bool)
    requires s.poll.StoreFirst? || s.poll.StoreTail? || s.poll.StubNull? || s.poll.StubXchg? || s.poll.StubLink?
    ensures !Advance(s, more).poll.CheckHead?
  {
    match s.poll
    case StoreFirst(_) =>
    case StoreTail(_, _) =>
    case StubNull(_) =>
    case StubXchg(_) =>
    case StubLink(_, _) =>
  }

  lemma ChecksPass(s: State, more: bool)
    requires s.poll.Off? || s.poll.Top? || s.poll.Decrement? || s.poll.CheckHead? || s.poll.LoadThird?
             || s.poll.CheckState? || s.poll.Dispose? || s.poll.Stop?
    ensures !Advance(s, more).poll.CheckHead?
  {
    match s.poll
    case Off =>
    case Top =>
    case Decrement(_) =>
    case CheckHead(_) =>
    case LoadThird(_) =>
    case CheckState(_) =>
    case Dispose(_) =>
    case Stop =>
  }

  lemma IntoCheckHead(s: State, more: bool)
    requires s.poll.LoadFirst? || (s.poll.LoadSecond? && s.poll.t == s.q.tail)
    requires Advance(s, more).poll.CheckHead?
    ensures NextOf(s.q, s.q.tail).None? && Advance(s, more) == s.(poll := CheckHead(s.q.tail))
  {
    match s.poll
    case LoadFirst =>
    case LoadSecond(_) =>
  }

  lemma PollGap(s: State, t: State)
    requires ListOk(s) && OrderOk(s) && MembersOk(s.h.order, s.stage) && s.q.peeked.None?
    requires s.poll.LoadFirst? || s.poll.LoadSecond?
    requires NextOf(s.q, s.q.tail).None? && t == s.(poll := CheckHead(s.q.tail))
    ensures NoPackets(t) || MidLink(t) || t.h.chain == [t.poll.t]
  {
    EmptyLoad(s);
    SameHope(s, t);
  }

  lemma ThreadGap(s: State, step: Step)
    requires GapOk(s) && Enabled(s, step) && !step.PollStep?
    ensures GapOk(Apply(s, step))
  {
    ChainGrows(s, step);
  }

  lemma ApplyGap(s: State, step: Step)
    requires Inv(s) && Enabled(s, step)
    ensures GapOk(Apply(s, step))
  {
    if !step.PollStep? {
      ThreadGap(s, step);
    } else if s.poll.LoadFirst? || s.poll.LoadSecond? {
      if Advance(s, step.more).poll.CheckHead? {
        IntoCheckHead(s, step.more);
        PollGap(s, Advance(s, step.more));
      }
    } else if s.poll.StoreFirst? || s.poll.StoreTail? || s.poll.StubNull? || s.poll.StubXchg? || s.poll.StubLink? {
      StoresPass(s, step.more);
    } else {
      ChecksPass(s, step.more);
    }
  }

  lemma ApplyOk(s: State, step: Step)
    requires Inv(s) && Enabled(s, step)
    ensures Inv(Apply(s, step))
  {
    ApplyCore(s, step);
    ApplyGap(s, step);
  }

  lemma {:induction false} RunInv(trace: seq<State>, steps: seq<Step>, i: nat)
    requires IsRun(trace, steps) && i < |trace|
    ensures Inv(trace[i])
  {
    if i == 0 {
      InitOk(trace[0]);
      assert GapOk(trace[0]);
    } else {
      RunInv(trace, steps, i - 1);
      assert IsStep(trace, steps, i - 1);
      ApplyOk(trace[i - 1], steps[i - 1]);
    }
  }

  // ----- the theorems -----

  /** The packets of the Exchange steps so far: the order the producers agreed on. */
  function ExchangeOrder(steps: seq<Step>): seq<Node> {
    if steps == [] then []
    else ExchangeOrder(steps[..|steps| - 1])
         + (if steps[|steps| - 1].Exchange? then [P(steps[|steps| - 1].p)] else [])
  }

  lemma PollKeepsOrder(s: State, more: bool)
    ensures Advance(s, more).h.order == s.h.order
  {
    if s.poll.StoreFirst? || s.poll.StoreTail? || s.poll.StubXchg? {
    } else if s.poll.Dispose? {
      assert Disposed(s, s.poll.t, more).h.order == s.h.order;
    } else {
    }
  }

  lemma ThreadsKeepOrder(s: State, step: Step)
    requires Enabled(s, step) && !step.PollStep? && !step.Exchange?
    ensures Move(s, step).h == s.h
  {
  }

  lemma OrderStep(s: State, step: Step)
    requires Enabled(s, step)
    ensures Apply(s, step).h.order == s.h.order + (if step.Exchange? then [P(step.p)] else [])
  {
    if step.PollStep? {
      PollKeepsOrder(s, step.more);
    } else if !step.Exchange? {
      ThreadsKeepOrder(s, step);
    }
  }

  lemma {:induction false} OrderIsExchanges(trace: seq<State>, steps: seq<Step>, i: nat)
    requires IsRun(trace, steps) && i < |trace|
    ensures trace[i].h.order == ExchangeOrder(steps[..i])
  {
    if i > 0 {
      OrderIsExchanges(trace, steps, i - 1);
      assert IsStep(trace, steps, i - 1);
      OrderStep(trace[i - 1], steps[i - 1]);
      assert steps[..i][..i - 1] == steps[..i - 1];
    }
  }

  /**
   The stub queue is a FIFO under any interleaving: what dequeue has returned is a prefix
   of the exchange order, the stub is never returned and is in the list at most once, and
   the counter is the number of reserved and queued packets, never above 1024.
   */
  lemma QueueIsFifo(trace: seq<State>, steps: seq<Step>, i: nat)
    requires IsRun(trace, steps) && i < |trace|
    ensures trace[i].h.out <= ExchangeOrder(steps[..i])
    ensures ExchangeOrder(steps[..i]) == trace[i].h.out + Packets(trace[i].h.chain)
    ensures Stub !in trace[i].h.out && trace[i].q.peeked != Some(Stub)
    ensures Distinct(trace[i].h.chain)
    ensures trace[i].h.chain != [] && trace[i].h.chain[0] == trace[i].q.tail
    ensures 0 <= trace[i].q.count == |Counted(trace[i].stage, trace[i].h.chain, trace[i].poll)| <= 1024
  {
    var s := trace[i];
    RunInv(trace, steps, i);
    OrderIsExchanges(trace, steps, i);
    forall j | 0 <= j < |s.h.out|
      ensures s.h.out[j].P?
    {
      assert s.h.order[j] == s.h.out[j];
    }
    if s.q.peeked.Some? { assert s.h.order[|s.h.gone|] == s.q.peeked.value; }
  }

  /** The node behind a written link is the next node of the FIFO. */
  lemma NextIsNext(trace: seq<State>, steps: seq<Step>, i: nat)
    requires IsRun(trace, steps) && i < |trace|
    ensures NextOf(trace[i].q, trace[i].q.tail).Some? ==>
              |trace[i].h.chain| > 1 && NextOf(trace[i].q, trace[i].q.tail) == Some(trace[i].h.chain[1])
  {
    var s := trace[i];
    RunInv(trace, steps, i);
    if |s.h.chain| > 1 {
      assert LinkAt(s.h.chain[0], s.h.chain[0 + 1], s.q.next, s.stage, s.poll);
    }
  }

  /** dequeue gives up only if, during the call, the list had no packet or a producer was
      between its exchange and its link. */
  lemma NullMeansGap(trace: seq<State>, steps: seq<Step>, i: nat)
    requires IsRun(trace, steps) && i < |steps|
    requires Dequeueing(trace[i].poll) && trace[i + 1].poll.Stop?
    ensures trace[i + 1].h.gap
  {
    var s, t := trace[i], trace[i + 1];
    RunInv(trace, steps, i);
    assert IsStep(trace, steps, i);
    StopsShort(s, steps[i]);
  }

  lemma IntoStop(s: State, more: bool)
    requires PollOk(s) && Dequeueing(s.poll) && Advance(s, more).poll.Stop?
    ensures Advance(s, more) == s.(poll := Stop)
    ensures s.poll.CheckHead? || NextOf(s.q, s.q.tail).None?
    ensures s.poll.CheckHead? || (s.poll.LoadFirst? && s.q.tail.Stub?) || s.poll.LoadThird?
    ensures s.poll.CheckHead? ==> s.poll.t != s.q.head
  {
  }

  lemma StopExplained(s: State, t: State)
    requires Core(s) && GapOk(s) && t == s.(poll := Stop)
    requires s.poll.CheckHead? || NextOf(s.q, s.q.tail).None?
    requires s.poll.CheckHead? || (s.poll.LoadFirst? && s.q.tail.Stub?) || s.poll.LoadThird?
    requires s.poll.CheckHead? ==> s.poll.t != s.q.head
    ensures t.h.gap || NoPackets(t) || MidLink(t)
  {
    if !s.poll.CheckHead? {
      EmptyLoad(s);
      SameHope(s, t);
    }
  }

  lemma StopsShort(s: State, step: Step)
    requires Inv(s) && Enabled(s, step) && Dequeueing(s.poll) && Move(s, step).poll.Stop?
    ensures Apply(s, step).h.gap
  {
    if step.PollStep? {
      IntoStop(s, step.more);
      StopExplained(s, Advance(s, step.more));
    } else {
      ChainGrows(s, step);
    }
  }

  predicate NotYetWoken(s: State, p: Pkt) {
    p in s.stage && InQueue(s, P(p)) && !s.stage[p].Woken?
  }

  /**
   No stranded packet, for the unconditional trigger and for the guarded one: while NAPI
   is idle and the queue is not empty, some queued packet has its wake step still to do.
   The guard may even read the tail packet after it was freed, and see anything.
   */
  lemma NoStrandedPacket(trace: seq<State>, steps: seq<Step>, i: nat)
    requires IsRun(trace, steps) && i < |trace|
    requires !trace[i].sched && trace[i].h.order != trace[i].h.gone
    ensures exists p :: NotYetWoken(trace[i], p)
  {
    RunInv(trace, steps, i);
    var p :| p in trace[i].stage && Hopeful(trace[i], p);
    assert NotYetWoken(trace[i], p);
  }

  /** Once every packet's thread is finished and NAPI is idle, the queue has drained, every
      packet was freed or handed on once, and every reference it took was put once. */
  lemma QuiescentMeansDone(trace: seq<State>, steps: seq<Step>, i: nat)
    requires IsRun(trace, steps) && i < |trace| && !trace[i].sched
    requires forall p :: p in trace[i].stage ==> trace[i].stage[p].Woken? || trace[i].stage[p].Rejected?
    ensures trace[i].h.gone == ExchangeOrder(steps[..i])
    ensures forall p :: p in trace[i].stage && P(p) in trace[i].h.order ==>
            p in trace[i].ledger && Balanced(trace[i].ledger[p])
    ensures forall p :: p in trace[i].stage && trace[i].stage[p].Rejected? ==>
            p in trace[i].ledger && Balanced(trace[i].ledger[p])
  {
    var s := trace[i];
    RunInv(trace, steps, i);
    OrderIsExchanges(trace, steps, i);
    if s.h.order != s.h.gone {
      NoStrandedPacket(trace, steps, i);
    }
    forall p | p in s.stage && (P(p) in s.h.order || s.stage[p].Rejected?)
      ensures p in s.ledger && Balanced(s.ledger[p])
    {
      assert EntryOk(s.stage[p], s.ledger[p], P(p) in s.h.gone);
    }
  }

  predicate Balanced(l: Ledger) {
    l.peerGets == l.peerPuts && l.keypairGets == l.keypairPuts && l.ends == 1
  }

  predicate NeverOverput(l: Ledger) {
    l.ends <= 1 && l.peerPuts <= l.peerGets && l.keypairPuts <= l.keypairGets
  }

  /** While a packet's thread is about to wake the peer's NAPI, it has a reference of the peer, disposed of or not. */
  lemma PeerOutlives(trace: seq<State>, steps: seq<Step>, i: nat, p: Pkt)
    requires IsRun(trace, steps) && i < |trace| && p in trace[i].stage
    requires trace[i].stage[p].Stored? || trace[i].stage[p].SawTail?
    ensures p in trace[i].ledger && trace[i].ledger[p].peerPuts < trace[i].ledger[p].peerGets
  {
    RunInv(trace, steps, i);
    assert EntryOk(trace[i].stage[p], trace[i].ledger[p], P(p) in trace[i].h.gone);
  }

  /** Disposal is in queue order, once per packet, and never of an undecided packet. */
  lemma DisposalInOrder(trace: seq<State>, steps: seq<Step>, i: nat)
    requires IsRun(trace, steps) && i < |trace|
    ensures trace[i].h.gone <= ExchangeOrder(steps[..i])
    ensures Distinct(trace[i].h.gone)
    ensures forall n :: n in trace[i].h.gone ==> WordOf(trace[i], n) != Uncrypted
    ensures forall p :: p in trace[i].stage ==> p in trace[i].ledger && NeverOverput(trace[i].ledger[p])
  {
    var s := trace[i];
    RunInv(trace, steps, i);
    OrderIsExchanges(trace, steps, i);
    assert s.h.gone <= s.h.order;
    forall p | p in s.stage
      ensures p in s.ledger && NeverOverput(s.ledger[p])
    {
      assert EntryOk(s.stage[p], s.ledger[p], P(p) in s.h.gone);
    }
    forall i, j | 0 <= i < j < |s.h.gone|
      ensures s.h.gone[i] != s.h.gone[j]
    {
      assert s.h.order[i] == s.h.gone[i] && s.h.order[j] == s.h.gone[j];
    }
  }
}
