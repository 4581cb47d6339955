/**
 The guard in front of the wake reads queue->tail, which is already behind the packet the poll
 has peeked.  So it is not true that the worker that finishes the head wakes the poll: there is a
 run in which it does not.  That no packet is stranded nevertheless is NoStrandedPacket.
 */
module RxGuard {
  import opened Maybe
  import opened RxPipeline
  import opened RxSafety

  ghost predicate Reachable(s: State) {
    exists trace: seq<State>, steps: seq<Step> :: IsRun(trace, steps) && trace[|trace| - 1] == s
  }

  lemma ReachInit()
    ensures Reachable(Start())
  {
    var trace, steps: seq<Step> := [Start()], [];
    assert IsRun(trace, steps) && trace[|trace| - 1] == Start();
  }

  /** A guarded queue with nothing in it. */
  function Start(): State {
    State(Guarded, {}, Queue(map[Stub := None], Stub, Stub, 0, None), map[], map[], map[], Off, false, false,
      History([Stub], [], [], [], [], [], false))
  }

  lemma ReachStep(s: State, step: Step)
    requires Reachable(s) && Enabled(s, step)
    ensures Reachable(Apply(s, step))
  {
    var trace: seq<State>, steps: seq<Step> :| IsRun(trace, steps) && trace[|trace| - 1] == s;
    var trace', steps' := trace + [Apply(s, step)], steps + [step];
    forall i | 0 <= i < |steps'|
      ensures IsStep(trace', steps', i)
    {
      if i < |steps| { assert IsStep(trace, steps, i); }
    }
    assert IsRun(trace', steps') && trace'[|trace'| - 1] == Apply(s, step);
  }

  /** What the rest of the pipeline sees of the state, apart from packet p's own thread. */
  predicate SameElsewhere(s: State, t: State, p: Pkt) {
    && t.trigger == s.trigger && t.poll == s.poll && t.sched == s.sched && t.missed == s.missed
    && t.q.tail == s.q.tail && t.q.peeked == s.q.peeked && t.h.gone == s.h.gone
    && (forall r :: r in s.stage && r != p ==> r in t.stage && t.stage[r] == s.stage[r])
    && (forall r :: r in t.stage && r != p ==> r in s.stage)
    && (forall r :: r in s.word && r != p ==> r in t.word && t.word[r] == s.word[r])
  }

  lemma Admitted(s: State, p: Pkt) returns (t: State)
    requires Reachable(s) && p !in s.stage
    ensures Reachable(t) && SameElsewhere(s, t, p) && At(t, p, Entered) && p in t.word && t.word[p] == Uncrypted
    ensures t.q == s.q
  {
    t := Apply(s, Enter(p));
    ReachStep(s, Enter(p));
  }

  lemma Prepared(s: State, p: Pkt) returns (t: State)
    requires Reachable(s) && p !in s.stage && s.q.count < MAX_QUEUED_PACKETS
    ensures Reachable(t) && SameElsewhere(s, t, p) && At(t, p, Nulled) && p in t.word && t.word[p] == Uncrypted
    ensures t.q == s.q.(count := s.q.count + 1, next := s.q.next[P(p) := None])
  {
    var a := Admitted(s, p);
    var b := Apply(a, Reserve(p));
    ReachStep(a, Reserve(p));
    t := Apply(b, NullNext(p));
    ReachStep(b, NullNext(p));
  }

  lemma Attached(s: State, p: Pkt) returns (t: State)
    requires Reachable(s) && At(s, p, Nulled)
    ensures Reachable(t) && SameElsewhere(s, t, p) && At(t, p, Ringed) && t.word == s.word
    ensures t.q == s.q.(head := P(p), next := s.q.next[s.q.head := Some(P(p))])
  {
    var a := Apply(s, Exchange(p));
    ReachStep(s, Exchange(p));
    var b := Apply(a, Link(p));
    ReachStep(a, Link(p));
    t := Apply(b, Produce(p, false));
    ReachStep(b, Produce(p, false));
  }

  /** A packet is entered, queued and put on the ring. */
  lemma Enqueued(s: State, p: Pkt) returns (t: State)
    requires Reachable(s) && p !in s.stage && s.q.count < MAX_QUEUED_PACKETS
    ensures Reachable(t) && SameElsewhere(s, t, p) && At(t, p, Ringed) && p in t.word && t.word[p] == Uncrypted
    ensures t.q.count == s.q.count + 1 && t.q.head == P(p)
    ensures t.q.next == s.q.next[P(p) := None][s.q.head := Some(P(p))]
  {
    var a := Prepared(s, p);
    t := Attached(a, p);
  }

  /** A packet is decrypted, its state stored, and the tail read for the guard. */
  lemma Finished(s: State, p: Pkt) returns (t: State)
    requires Reachable(s) && At(s, p, Ringed) && s.trigger == Guarded
    ensures Reachable(t) && SameElsewhere(s, t, p) && At(t, p, SawTail(s.q.tail)) && p in t.word && t.word[p] == Crypted
    ensures t.q == s.q
  {
    var b := StoredCrypted(s, p);
    t := Apply(b, ReadTail(p));
    ReachStep(b, ReadTail(p));
  }

  lemma StoredCrypted(s: State, p: Pkt) returns (t: State)
    requires Reachable(s) && At(s, p, Ringed)
    ensures Reachable(t) && SameElsewhere(s, t, p) && At(t, p, Stored) && p in t.word && t.word[p] == Crypted
    ensures t.q == s.q && t.trigger == s.trigger
  {
    var a := Apply(s, Decrypt(p, Crypted));
    ReachStep(s, Decrypt(p, Crypted));
    t := Apply(a, Store(p));
    ReachStep(a, Store(p));
  }

  /** The poll steps over the stub and reads the links of the packet behind it. */
  lemma PolledLinks(s: State, p: Pkt, n: Node) returns (t: State)
    requires Reachable(s) && s.poll == Off && s.sched && s.q.peeked.None? && s.q.tail == Stub
    requires NextOf(s.q, Stub) == Some(P(p)) && NextOf(s.q, P(p)) == Some(n)
    ensures Reachable(t) && t.poll == StoreTail(P(p), n) && t == s.(q := t.q, poll := t.poll, h := t.h)
    ensures t.h.gone == s.h.gone
  {
    var a := Polled(s);
    assert a.poll == Top;
    var b := Polled(a);
    assert b.poll == LoadFirst;
    var c := Polled(b);
    assert c.poll == StoreFirst(P(p));
    var d := Polled(c);
    assert d.poll == LoadSecond(P(p));
    t := Polled(d);
  }

  /** It takes the packet as peeked. */
  lemma PolledPeek(s: State, p: Pkt, n: Node) returns (t: State)
    requires Reachable(s) && s.poll == StoreTail(P(p), n)
    ensures Reachable(t) && t.poll == CheckState(P(p)) && t == s.(q := t.q, poll := t.poll, h := t.h)
    ensures t.h.gone == s.h.gone
    ensures t.q.peeked == Some(P(p)) && t.q.tail == n
  {
    var a := Polled(s);
    assert a.poll == Decrement(P(p));
    t := Polled(a);
  }

  /** The poll finds the packet behind the stub undecided, keeps it as peeked, and goes idle. */
  lemma PolledOnce(s: State, p: Pkt, n: Node) returns (t: State)
    requires Reachable(s) && s.poll == Off && s.sched && !s.missed && s.q.peeked.None? && s.q.tail == Stub
    requires NextOf(s.q, Stub) == Some(P(p)) && NextOf(s.q, P(p)) == Some(n)
    requires p in s.word && s.word[p] == Uncrypted
    ensures Reachable(t) && t.poll == Off && !t.sched && !t.missed && t.q.peeked == Some(P(p)) && t.q.tail == n
    ensures t.trigger == s.trigger && t.stage == s.stage && t.word == s.word && t.h.gone == s.h.gone
  {
    var a := PolledLinks(s, p, n);
    var b := PolledPeek(a, p, n);
    var c := Polled(b);
    assert c.poll == Stop;
    t := Polled(c);
  }

  lemma Polled(s: State) returns (t: State)
    requires Reachable(s) && Enabled(s, PollStep(true))
    ensures Reachable(t) && t == Advance(s, true).(h := t.h) && t.h.gone == Advance(s, true).h.gone
  {
    t := Apply(s, PollStep(true));
    ReachStep(s, PollStep(true));
  }

  predicate ThreeUndecided(s: State) {
    && s.trigger == Guarded && s.poll == Off && !s.sched && !s.missed && s.q.peeked.None? && s.q.tail == Stub
       && s.h.gone == []
    && NextOf(s.q, Stub) == Some(P(0)) && NextOf(s.q, P(0)) == Some(P(1))
    && At(s, 0, Ringed) && At(s, 1, Ringed) && At(s, 2, Ringed)
    && WordOf(s, P(0)) == WordOf(s, P(1)) == Uncrypted && 0 in s.word && 1 in s.word
  }

  predicate Undecided(s: State, p: Pkt) { At(s, p, Ringed) && p in s.word && s.word[p] == Uncrypted }

  predicate Quiescent(s: State) {
    s.trigger == Guarded && s.poll == Off && !s.sched && !s.missed && s.q.peeked.None? && s.q.tail == Stub
      && s.h.gone == []
  }

  lemma TwoQueued() returns (s: State)
    ensures Reachable(s) && Quiescent(s) && Undecided(s, 0) && Undecided(s, 1) && 2 !in s.stage && s.q.count == 2
    ensures s.q.head == P(1)
    ensures NextOf(s.q, Stub) == Some(P(0)) && NextOf(s.q, P(0)) == Some(P(1))
  {
    ReachInit();
    var a := Enqueued(Start(), 0);
    s := Enqueued(a, 1);
  }

  lemma ThreeQueued() returns (s: State)
    ensures Reachable(s) && ThreeUndecided(s)
  {
    var a := TwoQueued();
    s := Enqueued(a, 2);
  }

  lemma LastWakes(s: State) returns (t: State)
    requires Reachable(s) && ThreeUndecided(s)
    ensures Reachable(t) && t.q == s.q && t.trigger == Guarded && t.poll == Off && t.sched && !t.missed
    ensures t.h.gone == []
    ensures At(t, 0, Ringed) && 0 in t.word && 1 in t.word && WordOf(t, P(0)) == WordOf(t, P(1)) == Uncrypted
  {
    var d := Finished(s, 2);
    t := Apply(d, Decide(2, Crypted));
    ReachStep(d, Decide(2, Crypted));
  }

  /**
   Packets 0, 1 and 2 are queued in this order.  Packet 2 is finished first and wakes the poll,
   which peeks at packet 0 and stops.  When packet 0 is finished it is the head of the queue, but
   the guard looks at packet 1, finds it undecided, and the poll is not woken.
   */
  lemma HeadFinisherMaySkip() returns (s: State)
    ensures Reachable(s) && s.q.peeked == Some(P(0)) && At(s, 0, SawTail(P(1))) && WordOf(s, P(0)) == Crypted
    ensures Enabled(s, Decide(0, Uncrypted))
    ensures !s.sched && !Apply(s, Decide(0, Uncrypted)).sched && At(Apply(s, Decide(0, Uncrypted)), 0, Woken)
  {
    var a := ThreeQueued();
    var b := LastWakes(a);
    var c := PolledOnce(b, 0, P(1));
    s := Finished(c, 0);
  }

  /** Packet p is the head of the queue: the oldest one not disposed of. */
  predicate IsHead(s: State, p: Pkt) {
    |s.h.gone| < |s.h.order| && s.h.order[|s.h.gone|] == P(p)
  }

  /** A head that is not peeked is the tail, or right behind the stub that is the tail. */
  lemma UnpeekedHead(s: State, p: Pkt)
    requires Inv(s) && IsHead(s, p) && Held(s) == []
    ensures s.q.tail.Stub? || s.q.tail == P(p)
  {
    assert s.h.order == s.h.gone + Packets(s.h.chain);
    assert s.q.tail == s.h.chain[0];
    if s.q.tail.P? {
      assert Packets(s.h.chain)[0] == s.q.tail;
    }
  }

  /** The guard, with the word the tail has by the time it is read: the stub, or decided. */
  predicate Decisive(s: State, tail: Node) { tail.Stub? || WordOf(s, tail) != Uncrypted }

  /** The poll has taken no packet off the list that it has not disposed of. */
  predicate Unpeeked(s: State) { Held(s) == [] }

  /**
   Exactly when the worker that finishes the head of the queue wakes an idle poll, whatever comes
   between its two steps: no packet was peeked when it read the tail, or the tail it read is the
   stub or decided by the time it decides.  A tail disposed of in between may read as anything.
   */
  lemma HeadWakesIff(trace: seq<State>, steps: seq<Step>, i: nat, j: nat, p: Pkt, read: PacketState)
    requires IsRun(trace, steps) && i < j < |steps| && steps[i] == ReadTail(p) && steps[j] == Decide(p, read)
    requires IsHead(trace[i], p) && trace[i].q.tail !in trace[j].h.gone && !trace[j].sched
    ensures trace[j + 1].sched <==> Unpeeked(trace[i]) || Decisive(trace[j], trace[i].q.tail)
  {
    RunInv(trace, steps, i);
    RunInv(trace, steps, j);
    SawStays(trace, steps, i, j, p);
    assert IsStep(trace, steps, j);
    DecideWakesIff(trace[j], p, read);
    if Unpeeked(trace[i]) {
      UnpeekedHead(trace[i], p);
      SeenIsDecided(trace[j], p);
    }
  }

  lemma DecideWakesIff(s: State, p: Pkt, read: PacketState)
    requires Enabled(s, Decide(p, read)) && s.stage[p].tail !in s.h.gone && !s.sched
    ensures Apply(s, Decide(p, read)).sched <==> Decisive(s, s.stage[p].tail)
  {
  }

  /** A worker at its guard has stored its own packet's state. */
  lemma SeenIsDecided(s: State, p: Pkt)
    requires WordsOk(s.stage, s.word, s.h.gone) && p in s.stage && s.stage[p].SawTail?
    ensures Decisive(s, P(p))
  {
    assert !Early(s.stage[p]);
  }

  lemma DecidesOwn(s: State, p: Pkt, read: PacketState)
    requires Inv(s) && Enabled(s, Decide(p, read)) && P(p) !in s.h.gone
    requires s.stage[p].tail.Stub? || s.stage[p].tail == P(p)
    ensures Apply(s, Decide(p, read)).sched
  {
    assert !Early(s.stage[p]);
  }

  /** However long the worker of an unpeeked head takes to decide, it leaves the poll scheduled, or its packet is
      gone. */
  lemma UnpeekedHeadWakes(trace: seq<State>, steps: seq<Step>, i: nat, j: nat, p: Pkt, read: PacketState)
    requires IsRun(trace, steps) && i < j < |steps| && steps[i] == ReadTail(p) && steps[j] == Decide(p, read)
    requires IsHead(trace[i], p) && Unpeeked(trace[i])
    ensures trace[j + 1].sched || P(p) in trace[j].h.gone
  {
    RunInv(trace, steps, i);
    UnpeekedHead(trace[i], p);
    SawStays(trace, steps, i, j, p);
    RunInv(trace, steps, j);
    assert IsStep(trace, steps, j);
    if P(p) !in trace[j].h.gone { DecidesOwn(trace[j], p, read); }
  }

  lemma {:induction false} SawStays(trace: seq<State>, steps: seq<Step>, i: nat, j: nat, p: Pkt)
    requires IsRun(trace, steps) && i < j < |steps| && steps[i] == ReadTail(p) && steps[j].Decide? && steps[j].p == p
    ensures At(trace[j], p, SawTail(trace[i].q.tail))
  {
    assert IsStep(trace, steps, i) && IsStep(trace, steps, j);
    SawBack(trace, steps, i, j, p);
  }

  /** A packet that has read the tail keeps what it read until it decides, and a packet reads the tail once. */
  lemma {:induction false} SawBack(trace: seq<State>, steps: seq<Step>, i: nat, j: nat, p: Pkt)
    requires IsRun(trace, steps) && i < j < |trace| && steps[i] == ReadTail(p)
    ensures p in trace[j].stage && (trace[j].stage[p] == SawTail(trace[i].q.tail) || trace[j].stage[p] == Woken)
    decreases j
  {
    if j == i + 1 {
      assert IsStep(trace, steps, i);
    } else {
      SawBack(trace, steps, i, j - 1, p);
      assert IsStep(trace, steps, j - 1);
      LateStage(trace[j - 1], steps[j - 1], p);
    }
  }

  /** A step of a packet's own thread moves that packet and no other. */
  lemma ThreadStage(s: State, step: Step, p: Pkt)
    requires Enabled(s, step) && !step.PollStep? && p in s.stage && step.p != p
    ensures p in Move(s, step).stage && Move(s, step).stage[p] == s.stage[p]
  {
    match step
    case Reserve(x) => assert TryReserve(s, x).stage[p] == s.stage[p];
    case Wake(_) =>
    case Decide(_, _) =>
    case Exchange(_) =>
    case Link(_) =>
    case Discard(_) =>
    case _ =>
  }

  lemma LateStage(s: State, step: Step, p: Pkt)
    requires Enabled(s, step) && p in s.stage && (s.stage[p].SawTail? || s.stage[p].Woken?)
    ensures p in Apply(s, step).stage && (Apply(s, step).stage[p] == s.stage[p] || Apply(s, step).stage[p] == Woken)
  {
    if step.PollStep? {
      PollKeepsStage(s, step.more);
    } else if step.p != p {
      ThreadStage(s, step, p);
    } else {
      assert step.Decide?;
    }
  }

  lemma PollKeepsStage(s: State, more: bool)
    ensures Advance(s, more).stage == s.stage
  {
    if s.poll.Dispose? {
      assert Disposed(s, s.poll.t, more).stage == s.stage;
    } else if s.poll.StoreFirst? || s.poll.StoreTail? || s.poll.StubXchg? || s.poll.StubLink? || s.poll.StubNull? {
    } else {
    }
  }
}
