/**
 What becomes of a packet of the receive pipeline, in terms of the steps of the run: it is turned
 away exactly if its peer or keypair is unknown, its peer is dead or the queue is full; a packet in
 the queue is handed on exactly if its decryption succeeded and the poll accepts its counter and
 source, and is freed otherwise; and packets are handed on in the order of the queue.
 */
module RxVerdict {
  import opened Maybe
  import opened RxPipeline
  import opened RxSafety
  import opened RxGuard

  // ----- the outcome of decryption -----

  /** The outcome the steps give to a packet: of its decryption, or of a full ring. */
  function Verdict(steps: seq<Step>, p: Pkt): Option<PacketState> {
    if steps == [] then None
    else
      var last := steps[|steps| - 1];
      if last.Decrypt? && last.p == p then Some(last.verdict)
      else if last == Produce(p, true) then Some(Dead)
      else Verdict(steps[..|steps| - 1], p)
  }

  predicate DecryptedBy(steps: seq<Step>, i: nat, p: Pkt, v: PacketState) {
    exists k :: 0 <= k < i && k < |steps| && steps[k] == Decrypt(p, v)
  }

  predicate RingFullBy(steps: seq<Step>, i: nat, p: Pkt) {
    exists k :: 0 <= k < i && k < |steps| && steps[k] == Produce(p, true)
  }

  /** A packet has an outcome from the step that decides it on, and its word is that outcome once stored. */
  predicate WordIsVerdict(s: State, p: Pkt, v: Option<PacketState>) {
    if p !in s.stage then v.None?
    else if s.stage[p].Decided? then v == Some(s.stage[p].verdict)
    else if AfterStore(s.stage[p]) then v.Some? && p in s.word && s.word[p] == v.value
    else v.None?
  }

  /** What the poll leaves alone, but for what it disposes of. */
  predicate PollLeaves(s: State, t: State) {
    && t.stage == s.stage && t.word == s.word && t.good == s.good
    && (!s.poll.Dispose? ==> SameDisposed(s, t))
  }

  predicate SameDisposed(s: State, t: State) {
    t.h.gone == s.h.gone && t.h.handed == s.h.handed && t.h.freed == s.h.freed && t.good == s.good
  }

  lemma StoresLeave(s: State, more: bool)
    requires s.poll.StoreFirst? || s.poll.StoreTail? || s.poll.StubXchg? || s.poll.StubLink? || s.poll.StubNull?
             || s.poll.Decrement?
    ensures PollLeaves(s, Advance(s, more))
  {
  }

  lemma LoadsLeave(s: State, more: bool)
    requires s.poll.LoadFirst? || s.poll.LoadSecond? || s.poll.LoadThird? || s.poll.CheckHead?
    ensures PollLeaves(s, Advance(s, more))
  {
  }

  lemma ChecksLeave(s: State, more: bool)
    requires s.poll.Off? || s.poll.Top? || s.poll.CheckState? || s.poll.Stop?
    ensures PollLeaves(s, Advance(s, more))
  {
  }

  lemma AdvanceLeaves(s: State, more: bool)
    ensures PollLeaves(s, Advance(s, more))
  {
    if s.poll.Dispose? {
      assert Advance(s, more) == Disposed(s, s.poll.t, more);
    } else if s.poll.StoreFirst? || s.poll.StoreTail? || s.poll.StubXchg? || s.poll.StubLink? || s.poll.StubNull?
              || s.poll.Decrement? {
      StoresLeave(s, more);
    } else if s.poll.LoadFirst? || s.poll.LoadSecond? || s.poll.LoadThird? || s.poll.CheckHead? {
      LoadsLeave(s, more);
    } else {
      ChecksLeave(s, more);
    }
  }

  predicate SamePacket(s: State, t: State, p: Pkt) {
    && (p in t.stage <==> p in s.stage) && (p in s.stage ==> t.stage[p] == s.stage[p])
    && (p in t.word <==> p in s.word) && (p in s.word ==> t.word[p] == s.word[p])
  }

  /** Another packet's thread leaves this packet alone. */
  lemma ThreadWords(s: State, step: Step, p: Pkt)
    requires Enabled(s, step) && !step.PollStep? && step.p != p
    ensures SamePacket(s, Move(s, step), p)
  {
    match step
    case Reserve(x) => assert TryReserve(s, x).word == s.word;
    case Wake(_) =>
    case Decide(_, _) =>
    case Exchange(_) =>
    case Link(_) =>
    case Discard(_) =>
    case Store(_) =>
    case _ =>
  }

  lemma OthersWords(s: State, step: Step, p: Pkt)
    requires Enabled(s, step) && (!step.PollStep? ==> step.p != p)
    ensures SamePacket(s, Apply(s, step), p)
  {
    if step.PollStep? { AdvanceLeaves(s, step.more); } else { ThreadWords(s, step, p); }
  }

  /** The step is the one that decides the packet. */
  function Decides(step: Step, p: Pkt, v: Option<PacketState>): Option<PacketState> {
    if step.Decrypt? && step.p == p then Some(step.verdict) else if step == Produce(p, true) then Some(Dead) else v
  }

  predicate IsEntry(step: Step) {
    step.Enter? || step.EnterUnknown? || step.PeerDead? || step.Discard? || step.Reserve? || step.NullNext?
    || step.Exchange?
  }

  lemma OwnEntry(s: State, step: Step, v: Option<PacketState>)
    requires Enabled(s, step) && IsEntry(step) && WordIsVerdict(s, step.p, v)
    ensures WordIsVerdict(Move(s, step), step.p, v)
  {
  }

  lemma OwnLater(s: State, step: Step, v: Option<PacketState>)
    requires Enabled(s, step) && !step.PollStep? && !IsEntry(step) && WordIsVerdict(s, step.p, v)
    ensures WordIsVerdict(Move(s, step), step.p, Decides(step, step.p, v))
  {
  }

  lemma OwnWord(s: State, step: Step, p: Pkt, v: Option<PacketState>)
    requires Enabled(s, step) && !step.PollStep? && step.p == p && WordIsVerdict(s, p, v)
    ensures WordIsVerdict(Move(s, step), p, Decides(step, p, v))
  {
    if IsEntry(step) { OwnEntry(s, step, v); } else { OwnLater(s, step, v); }
  }

  lemma WordStep(s: State, step: Step, p: Pkt, v: Option<PacketState>)
    requires Enabled(s, step) && WordIsVerdict(s, p, v)
    ensures WordIsVerdict(Apply(s, step), p, Decides(step, p, v))
  {
    if !step.PollStep? && step.p == p {
      OwnStep(s, step, v);
    } else {
      OthersWords(s, step, p);
      SameVerdict(s, Apply(s, step), p, v);
    }
  }

  lemma OwnStep(s: State, step: Step, v: Option<PacketState>)
    requires Enabled(s, step) && !step.PollStep? && WordIsVerdict(s, step.p, v)
    ensures WordIsVerdict(Apply(s, step), step.p, Decides(step, step.p, v))
  {
    OwnWord(s, step, step.p, v);
    SameVerdict(Move(s, step), Apply(s, step), step.p, Decides(step, step.p, v));
  }

  lemma SameVerdict(s: State, t: State, p: Pkt, v: Option<PacketState>)
    requires WordIsVerdict(s, p, v) && SamePacket(s, t, p)
    ensures WordIsVerdict(t, p, v)
  {
  }

  lemma {:induction false} RunWords(trace: seq<State>, steps: seq<Step>, i: nat, p: Pkt)
    requires IsRun(trace, steps) && i < |trace|
    ensures WordIsVerdict(trace[i], p, Verdict(steps[..i], p))
  {
    if i == 0 {
      assert steps[..0] == [];
    } else {
      RunWords(trace, steps, i - 1, p);
      assert IsStep(trace, steps, i - 1);
      WordStep(trace[i - 1], steps[i - 1], p, Verdict(steps[..i - 1], p));
      assert steps[..i][..i - 1] == steps[..i - 1];
    }
  }

  lemma {:induction false} VerdictMeans(steps: seq<Step>, i: nat, p: Pkt)
    requires i <= |steps| && Verdict(steps[..i], p).Some?
    ensures var v := Verdict(steps[..i], p).value; DecryptedBy(steps, i, p, v) || (v == Dead && RingFullBy(steps, i, p))
  {
    assert steps[..i][..i - 1] == steps[..i - 1];
    var last := steps[i - 1];
    if !(last.Decrypt? && last.p == p) && last != Produce(p, true) { VerdictMeans(steps, i - 1, p); }
  }

  /** A packet is decided once. */
  lemma {:induction false} DecidedOnce(trace: seq<State>, steps: seq<Step>, k: nat, i: nat, p: Pkt)
    requires IsRun(trace, steps) && k < i < |trace| && Decides(steps[k], p, None).Some?
    ensures Verdict(steps[..i], p) == Decides(steps[k], p, None)
  {
    assert steps[..i][..i - 1] == steps[..i - 1];
    if k < i - 1 {
      DecidedOnce(trace, steps, k, i - 1, p);
      RunWords(trace, steps, i - 1, p);
      assert IsStep(trace, steps, i - 1);
    }
  }

  // ----- handed on or freed -----

  /** The packets among those disposed of that were accepted, or those that were not. */
  function Part(s: State, gone: seq<Node>, accepted: bool): seq<Node> {
    if gone == [] then []
    else
      var n := gone[|gone| - 1];
      Part(s, gone[..|gone| - 1], accepted) + if Accepted(s, n) == accepted then [n] else []
  }

  predicate Parted(s: State) { s.h.handed == Part(s, s.h.gone, true) && s.h.freed == Part(s, s.h.gone, false) }

  lemma {:induction false} PartSame(s: State, t: State, gone: seq<Node>, accepted: bool)
    requires forall n :: n in gone ==> (Accepted(s, n) <==> Accepted(t, n))
    ensures Part(s, gone, accepted) == Part(t, gone, accepted)
  {
    if gone == [] {
    } else {
      PartSame(s, t, gone[..|gone| - 1], accepted);
    }
  }

  lemma {:induction false} PartIn(s: State, gone: seq<Node>, accepted: bool, n: Node)
    ensures n in Part(s, gone, accepted) <==> n in gone && Accepted(s, n) == accepted
  {
    if gone == [] {
    } else {
      PartIn(s, gone[..|gone| - 1], accepted, n);
      assert gone == gone[..|gone| - 1] + [gone[|gone| - 1]];
    }
  }

  /** Threads dispose of nothing. */
  lemma ThreadDisposes(s: State, step: Step)
    requires Enabled(s, step) && !step.PollStep?
    ensures SameDisposed(s, Move(s, step))
  {
    match step
    case Exchange(_) =>
    case Reserve(_) =>
    case Wake(_) =>
    case Decide(_, _) =>
    case Discard(_) =>
    case Store(_) =>
    case _ =>
  }

  lemma OthersDispose(s: State, step: Step)
    requires Enabled(s, step) && (step.PollStep? ==> !s.poll.Dispose?)
    ensures SameDisposed(s, Apply(s, step))
  {
    if step.PollStep? { AdvanceLeaves(s, step.more); } else { ThreadDisposes(s, step); }
  }

  /** The word of a packet that is gone does not change. */
  lemma GoneWord(s: State, step: Step, n: Node)
    requires WordsOk(s.stage, s.word, s.h.gone) && Enabled(s, step) && n in s.h.gone
    ensures n.P? && WordOf(Apply(s, step), n) == WordOf(s, n)
  {
    if !step.PollStep? && step.p == n.pkt {
      assert !Early(s.stage[n.pkt]);
      OwnGone(s, step);
    } else {
      OthersWords(s, step, n.pkt);
    }
  }

  lemma GoneWords(s: State, step: Step)
    requires WordsOk(s.stage, s.word, s.h.gone) && Enabled(s, step)
    ensures SameWords(s, Apply(s, step))
  {
    forall n | n in s.h.gone ensures WordOf(Apply(s, step), n) == WordOf(s, n) { GoneWord(s, step, n); }
  }

  predicate SameWords(s: State, t: State) { forall n :: n in s.h.gone ==> WordOf(t, n) == WordOf(s, n) }

  lemma OwnGone(s: State, step: Step)
    requires Enabled(s, step) && !step.PollStep? && step.p in s.stage && !Early(s.stage[step.p])
    ensures Move(s, step).word == s.word
  {
    match step
    case Discard(_) =>
    case Wake(_) =>
    case ReadTail(_) =>
    case Decide(_, _) =>
  }

  /** One packet more is disposed of. */
  predicate DisposesOf(s: State, t: State, n: Node) {
    && t.h.gone == s.h.gone + [n] && t.word == s.word && t.good == s.good
    && t.h.handed == (if Accepted(s, n) then s.h.handed + [n] else s.h.handed)
    && t.h.freed == (if Accepted(s, n) then s.h.freed else s.h.freed + [n])
  }

  lemma PollDisposes(s: State, more: bool)
    requires s.poll.Dispose?
    ensures DisposesOf(s, Apply(s, PollStep(more)), s.poll.t)
  {
    assert Advance(s, more) == Disposed(s, s.poll.t, more);
  }

  lemma DisposeParts(s: State, t: State, n: Node)
    requires Parted(s) && DisposesOf(s, t, n)
    ensures Parted(t)
  {
    PartSame(s, t, s.h.gone, true);
    PartSame(s, t, s.h.gone, false);
    assert t.h.gone[..|t.h.gone| - 1] == s.h.gone;
  }

  lemma PartsStay(s: State, t: State)
    requires Parted(s) && SameDisposed(s, t) && SameWords(s, t)
    ensures Parted(t)
  {
    PartSame(s, t, s.h.gone, true);
    PartSame(s, t, s.h.gone, false);
  }

  lemma PartsStep(s: State, step: Step)
    requires WordsOk(s.stage, s.word, s.h.gone) && Parted(s) && Enabled(s, step)
    ensures Parted(Apply(s, step))
  {
    if step.PollStep? && s.poll.Dispose? {
      PollDisposes(s, step.more);
      DisposeParts(s, Apply(s, step), s.poll.t);
    } else {
      GoneWords(s, step);
      OthersDispose(s, step);
      PartsStay(s, Apply(s, step));
    }
  }

  lemma PartsAt(trace: seq<State>, steps: seq<Step>, i: nat)
    requires IsRun(trace, steps) && i < |steps| && Parted(trace[i])
    ensures Parted(trace[i + 1])
  {
    RunInv(trace, steps, i);
    assert IsStep(trace, steps, i);
    PartsStep(trace[i], steps[i]);
  }

  lemma {:induction false} RunParts(trace: seq<State>, steps: seq<Step>, i: nat)
    requires IsRun(trace, steps) && i < |trace|
    ensures Parted(trace[i])
  {
    if i == 0 {
    } else {
      RunParts(trace, steps, i - 1);
      PartsAt(trace, steps, i - 1);
    }
  }

  /** Once the poll has disposed of a packet: what it did with it, by the steps of the run. */
  lemma DisposedIff(trace: seq<State>, steps: seq<Step>, i: nat, p: Pkt)
    requires IsRun(trace, steps) && i < |trace| && P(p) in trace[i].h.gone
    ensures P(p) in trace[i].h.handed <==> DecryptedBy(steps, i, p, Crypted) && p in trace[i].good
    ensures P(p) in trace[i].h.freed <==> P(p) !in trace[i].h.handed
    ensures DecryptedBy(steps, i, p, Dead) || RingFullBy(steps, i, p) ==> P(p) in trace[i].h.freed
  {
    var s := trace[i];
    RunInv(trace, steps, i);
    RunParts(trace, steps, i);
    RunWords(trace, steps, i, p);
    PartIn(s, s.h.gone, true, P(p));
    PartIn(s, s.h.gone, false, P(p));
    GoneIsStored(s, p);
    VerdictIs(trace, steps, i, p);
  }

  /** The outcome in terms of steps, for a packet that has one. */
  lemma VerdictIs(trace: seq<State>, steps: seq<Step>, i: nat, p: Pkt)
    requires IsRun(trace, steps) && i < |trace|
    ensures DecryptedBy(steps, i, p, Crypted) <==> Verdict(steps[..i], p) == Some(Crypted)
    ensures DecryptedBy(steps, i, p, Dead) || RingFullBy(steps, i, p) <==> Verdict(steps[..i], p) == Some(Dead)
  {
    forall k | 0 <= k < i && Decides(steps[k], p, None).Some?
      ensures Verdict(steps[..i], p) == Decides(steps[k], p, None)
    {
      DecidedOnce(trace, steps, k, i, p);
    }
    if Verdict(steps[..i], p).Some? { VerdictMeans(steps, i, p); }
  }

  lemma GoneIsStored(s: State, p: Pkt)
    requires Books(s) && P(p) in s.h.gone
    ensures p in s.stage && AfterStore(s.stage[p])
  {
    var j :| 0 <= j < |s.h.gone| && s.h.gone[j] == P(p);
    assert s.h.order[j] == P(p);
  }

  /** At rest: exactly the packets decrypted well and accepted were handed on, all others of the queue freed. */
  lemma QuiescentIff(trace: seq<State>, steps: seq<Step>, i: nat, p: Pkt)
    requires IsRun(trace, steps) && i < |trace| && !trace[i].sched && P(p) in trace[i].h.order
    requires forall x :: x in trace[i].stage ==> trace[i].stage[x].Woken? || trace[i].stage[x].Rejected?
    ensures P(p) in trace[i].h.handed <==> DecryptedBy(steps, i, p, Crypted) && p in trace[i].good
    ensures P(p) in trace[i].h.freed <==> P(p) !in trace[i].h.handed
  {
    QuiescentMeansDone(trace, steps, i);
    OrderIsExchanges(trace, steps, i);
    DisposedIff(trace, steps, i, p);
  }

  /** What is handed on is handed on in the order in which the producers came to the queue. */
  lemma HandedInOrder(trace: seq<State>, steps: seq<Step>, i: nat)
    requires IsRun(trace, steps) && i < |trace|
    ensures trace[i].h.handed == Part(trace[i], trace[i].h.gone, true)
    ensures trace[i].h.gone <= ExchangeOrder(steps[..i])
  {
    RunParts(trace, steps, i);
    DisposalInOrder(trace, steps, i);
  }

  // ----- turned away -----

  /** The step finds no keypair, a dead peer, or 1024 packets reserved or queued. */
  predicate TurnsAway(s: State, step: Step, p: Pkt) {
    || (step.EnterUnknown? && step.p == p) || step == PeerDead(p)
    || (step == Reserve(p) && |Counted(s.stage, s.h.chain, s.poll)| == 1024)
  }

  predicate TurnedAway(s: State, p: Pkt) { p in s.stage && Leaves(s.stage[p]) }

  lemma AwayStep(s: State, step: Step, p: Pkt)
    requires CountOk(s) && Enabled(s, step)
    ensures TurnedAway(Apply(s, step), p) <==> TurnedAway(s, p) || TurnsAway(s, step, p)
  {
    if !step.PollStep? && step.p == p { OwnAway(s, step); } else { OthersWords(s, step, p); }
  }

  lemma AwayEntry(s: State, step: Step)
    requires CountOk(s) && Enabled(s, step) && IsEntry(step)
    ensures TurnedAway(Move(s, step), step.p) <==> TurnedAway(s, step.p) || TurnsAway(s, step, step.p)
  {
  }

  lemma AwayLater(s: State, step: Step)
    requires Enabled(s, step) && !step.PollStep? && !IsEntry(step)
    ensures !TurnedAway(Move(s, step), step.p) && !TurnedAway(s, step.p)
  {
  }

  lemma OwnAway(s: State, step: Step)
    requires CountOk(s) && Enabled(s, step) && !step.PollStep?
    ensures TurnedAway(Move(s, step), step.p) <==> TurnedAway(s, step.p) || TurnsAway(s, step, step.p)
  {
    if IsEntry(step) { AwayEntry(s, step); } else { AwayLater(s, step); }
  }

  lemma AwayAt(trace: seq<State>, steps: seq<Step>, i: nat, p: Pkt)
    requires IsRun(trace, steps) && i < |steps|
    ensures TurnedAway(trace[i + 1], p) <==> TurnedAway(trace[i], p) || TurnsAway(trace[i], steps[i], p)
  {
    RunInv(trace, steps, i);
    assert IsStep(trace, steps, i);
    AwayStep(trace[i], steps[i], p);
  }

  /** Exactly which packets are turned away. */
  lemma {:induction false} TurnedAwayIff(trace: seq<State>, steps: seq<Step>, i: nat, p: Pkt)
    requires IsRun(trace, steps) && i < |trace|
    ensures TurnedAway(trace[i], p) <==> exists k :: 0 <= k < i && TurnsAway(trace[k], steps[k], p)
  {
    if i == 0 {
    } else {
      TurnedAwayIff(trace, steps, i - 1, p);
      AwayAt(trace, steps, i - 1, p);
    }
  }

  // ----- how long a poll goes on -----

  lemma LoadsGoOn(s: State, more: bool)
    requires s.poll.LoadFirst? || s.poll.LoadSecond? || s.poll.LoadThird?
    ensures !Advance(s, more).poll.Off?
  {
  }

  lemma ChecksGoOn(s: State, more: bool)
    requires s.poll.Top? || s.poll.CheckHead? || s.poll.CheckState? || s.poll.Decrement? || s.poll.StubNull?
    ensures !Advance(s, more).poll.Off?
  {
  }

  lemma StoresGoOn(s: State, more: bool)
    requires s.poll.StoreFirst? || s.poll.StoreTail? || s.poll.StubXchg? || s.poll.StubLink?
    ensures !Advance(s, more).poll.Off?
  {
  }

  lemma AdvanceEnds(s: State, more: bool)
    requires !s.poll.Off? && Advance(s, more).poll.Off?
    ensures s.poll.Stop? || (s.poll.Dispose? && !more)
  {
    if s.poll.Dispose? {
      assert Advance(s, more) == Disposed(s, s.poll.t, more);
    } else if s.poll.LoadFirst? || s.poll.LoadSecond? || s.poll.LoadThird? {
      LoadsGoOn(s, more);
    } else if s.poll.StoreFirst? || s.poll.StoreTail? || s.poll.StubXchg? || s.poll.StubLink? {
      StoresGoOn(s, more);
    } else if !s.poll.Stop? {
      ChecksGoOn(s, more);
    }
  }

  lemma AdvanceStops(s: State, more: bool)
    requires PollOk(s) && !Dequeueing(s.poll) && !s.poll.Stop? && Advance(s, more).poll.Stop?
    ensures s.q.peeked.Some? && WordOf(s, s.q.peeked.value) == Uncrypted
  {
  }

  /**
   A poll goes on until its budget is used up or it stops short, and it stops short only if the
   dequeue gives up, which has its reason in the list, or the packet it has peeked is undecided.
   */
  lemma PollGoesOnUntil(trace: seq<State>, steps: seq<Step>, i: nat)
    requires IsRun(trace, steps) && i < |steps|
    ensures !trace[i].poll.Off? && trace[i + 1].poll.Off? ==>
            trace[i].poll.Stop? || (trace[i].poll.Dispose? && steps[i] == PollStep(false))
    ensures !trace[i].poll.Stop? && trace[i + 1].poll.Stop? ==>
            || trace[i + 1].h.gap
            || (trace[i].q.peeked.Some? && WordOf(trace[i], trace[i].q.peeked.value) == Uncrypted)
  {
    var s, t := trace[i], trace[i + 1];
    RunInv(trace, steps, i);
    assert IsStep(trace, steps, i);
    if steps[i].PollStep? {
      if !s.poll.Off? && t.poll.Off? { AdvanceEnds(s, steps[i].more); }
      if !s.poll.Stop? && t.poll.Stop? {
        if Dequeueing(s.poll) { NullMeansGap(trace, steps, i); } else { AdvanceStops(s, steps[i].more); }
      }
    } else {
      ChainGrows(s, steps[i]);
    }
  }
}
