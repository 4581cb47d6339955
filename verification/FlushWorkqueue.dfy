/**
 The flush code as the kernel writes it: one object updated in place, one method per
 critical section.  Each method is proved to be the step of FlushProtocol that the
 safety proof is about.
 */
module FlushWorkqueue {
  import opened Maybe
  import opened FlushProtocol
  import opened FlushSafety

  class Workqueue {
    const colors: nat
    var pwqs: seq<Pwq>
    var workColor: nat
    var flushColor: nat
    var nrPwqsToFlush: int
    var firstFlusher: Option<Flusher>
    var flusherQueue: seq<Waiting>
    var flusherOverflow: seq<Flusher>
    var flusherColor: map<Flusher, nat>
    var mutex: Holder
    var wake: bool
    var completed: set<Flusher>
    var warned: bool
    var strayed: bool
    ghost var h: History

    ghost function View(): State
      reads this
    {
      State(colors, pwqs, workColor, flushColor, nrPwqsToFlush, firstFlusher, flusherQueue, flusherOverflow,
            flusherColor, mutex, wake, completed, warned, strayed, h)
    }

    /** work_next_color() */
    function NextColor(c: nat): nat {
      if c + 1 == colors then 0 else c + 1
    }

    constructor (colors: nat, nrPwqs: nat)
      requires colors >= 2
      ensures Init(View()) && this.colors == colors && |pwqs| == nrPwqs
    {
      this.colors := colors;
      pwqs := seq(nrPwqs, _ => Pwq(0, -1, seq(colors, _ => 0)));
      workColor, flushColor, nrPwqsToFlush := 0, 0, 0;
      firstFlusher, flusherQueue, flusherOverflow, flusherColor := None, [], [], map[];
      mutex, wake, completed, warned, strayed := Unlocked, false, {}, false, false;
      h := History(map[], {}, map[], map[], 0, 0, seq(nrPwqs, _ => 0));
    }

    /** The flush invariant holds of the fields. */
    ghost predicate Valid()
      reads this
    {
      Inv(View())
    }

    /** Every method below performs a step of the protocol; a step keeps the invariant. */
    twostate lemma StaysValid(step: Step)
      requires old(Valid()) && old(Enabled(View(), step)) && View() == Apply(old(View()), step)
      ensures Valid()
    {
      StepOk(old(View()), step);
    }

    /** __queue_work(), the colour accounting. */
    method QueueWorkOn(p: nat, ghost id: WorkId)
      requires Enabled(View(), QueueWork(id, p))
      modifies this`pwqs, this`h
      ensures View() == Apply(old(View()), QueueWork(id, p))
    {
      var q := pwqs[p];
      h := h.(live := h.live[id := Item(p, q.workColor, h.pwqEpoch[p])]);
      pwqs := pwqs[p := q.(inFlight := q.inFlight[q.workColor := q.inFlight[q.workColor] + 1])];
    }

    /** insert_wq_barrier(): the barrier takes the colour of the item it is linked to. */
    method InsertWqBarrier(p: nat, color: nat, ghost id: WorkId, ghost target: WorkId)
      requires Enabled(View(), InsertBarrier(id, target))
      requires h.live[target].pwq == p && h.live[target].color == color
      modifies this`pwqs, this`h
      ensures View() == Apply(old(View()), InsertBarrier(id, target))
    {
      var q := pwqs[p];
      h := h.(live := h.live[id := h.live[target]]);
      pwqs := pwqs[p := q.(inFlight := q.inFlight[color := q.inFlight[color] + 1])];
    }

    /** pwq_dec_nr_in_flight() */
    method PwqDecNrInFlight(p: nat, color: nat, ghost id: WorkId)
      requires Enabled(View(), Retire(id))
      requires h.live[id].pwq == p && h.live[id].color == color
      modifies this`pwqs, this`nrPwqsToFlush, this`wake, this`h
      ensures View() == Drop(old(View()), id)
    {
      h := h.(live := h.live - {id}, retired := h.retired + {id});
      var q := pwqs[p];
      q := q.(inFlight := q.inFlight[color := q.inFlight[color] - 1]);
      pwqs := pwqs[p := q];
      if q.flushColor != color { return; }
      if q.inFlight[color] != 0 { return; }
      pwqs := pwqs[p := q.(flushColor := -1)];
      nrPwqsToFlush := nrPwqsToFlush - 1;
      if nrPwqsToFlush == 0 { wake := true; }
    }

    /** The start-to-wait phase of __flush_workqueue(). */
    method StartFlushing(f: Flusher)
      requires colors > 0 && mutex.Unlocked?
      modifies this
      ensures View() == Start(old(View()), f)
    {
      var nextColor := NextColor(workColor);
      if nextColor == flushColor {
        flusherOverflow := flusherOverflow + [f];
      } else {
        if flusherOverflow != [] { warned := true; }
        TakeColor(f, nextColor);
        if firstFlusher.None? { BecomeFirst(f); } else { WaitInQueue(f); }
      }
    }

    method BecomeFirst(f: Flusher)
      requires f in flusherColor
      modifies this`warned, this`firstFlusher, this`nrPwqsToFlush, this`mutex
      ensures View() == old(View()).(
        first := Some(f), toFlush := 1, holder := Prep(0, true, true, false, StartedFirst),
        warned := old(warned) || flushColor != flusherColor[f] || old(nrPwqsToFlush) != 0)
    {
      if flushColor != flusherColor[f] || nrPwqsToFlush != 0 { warned := true; }
      firstFlusher := Some(f);
      nrPwqsToFlush := 1;
      mutex := Prep(0, true, true, false, StartedFirst);
    }

    method WaitInQueue(f: Flusher)
      requires f in flusherColor
      modifies this`warned, this`flusherQueue, this`mutex
      ensures View() == old(View()).(
        queue := old(flusherQueue) + [Waiting(f, flusherColor[f])],
        holder := Prep(0, false, true, false, StartedQueued),
        warned := old(warned) || flushColor == flusherColor[f])
    {
      if flushColor == flusherColor[f] { warned := true; }
      flusherQueue := flusherQueue + [Waiting(f, flusherColor[f])];
      mutex := Prep(0, false, true, false, StartedQueued);
    }

    /** The current work colour becomes the flusher's, and work moves on to the next one. */
    method TakeColor(f: Flusher, nextColor: nat)
      modifies this`flusherColor, this`workColor, this`h
      ensures View() == old(View()).(
        colorOf := old(flusherColor)[f := old(workColor)], workColor := nextColor,
        h := old(h).(epochOf := old(h).epochOf[f := old(h).workEpoch], workEpoch := old(h).workEpoch + 1))
    {
      flusherColor := flusherColor[f := workColor];
      workColor := nextColor;
      h := h.(epochOf := h.epochOf[f := h.workEpoch], workEpoch := h.workEpoch + 1);
    }

    /** The body of the loop in flush_workqueue_prep_pwqs(). */
    method PreparePwq()
      requires mutex.Prep? && mutex.cursor < |pwqs| == |h.pwqEpoch| && colors > 0
      requires flushColor < |pwqs[mutex.cursor].inFlight|
      modifies this`warned, this`nrPwqsToFlush, this`pwqs, this`mutex, this`h
      ensures View() == PrepareOne(old(View()))
    {
      ghost var s := View();
      ArmPwq();
      AdvancePwq();
      PreparedInHalves(s);
      mutex := mutex.(cursor := mutex.cursor + 1);
    }

    /** Its first half: a pwq with work of the flush colour is armed. */
    method ArmPwq()
      requires mutex.Prep? && mutex.cursor < |pwqs| && flushColor < |pwqs[mutex.cursor].inFlight|
      modifies this`warned, this`nrPwqsToFlush, this`pwqs, this`mutex
      ensures View() == ArmedAt(old(View()))
    {
      if mutex.arm {
        var p := mutex.cursor;
        warned := warned || pwqs[p].flushColor != -1;
        if pwqs[p].inFlight[flushColor] > 0 {
          pwqs := pwqs[p := pwqs[p].(flushColor := flushColor)];
          nrPwqsToFlush := nrPwqsToFlush + 1;
          mutex := mutex.(wait := true);
        }
      }
    }

    /** Its second half: the pwq moves on to the work colour. */
    method AdvancePwq()
      requires mutex.Prep? && mutex.cursor < |pwqs| == |h.pwqEpoch| && colors > 0
      modifies this`warned, this`pwqs, this`h
      ensures View() == AdvancedAt(old(View()))
    {
      if mutex.advance {
        var p := mutex.cursor;
        warned := warned || workColor != NextColor(pwqs[p].workColor);
        pwqs := pwqs[p := pwqs[p].(workColor := workColor)];
        h := h.(pwqEpoch := h.pwqEpoch[p := h.workEpoch]);
      }
    }

    /** The completion loop of the cascade; `next` is where its cursor stops. */
    method CompleteSharers() returns (next: Option<Flusher>)
      modifies this`flusherQueue, this`completed
      ensures var k := LeadLength(old(flusherQueue), flushColor);
              && flusherQueue == old(flusherQueue)[k..]
              && completed == old(completed) + Flushers(old(flusherQueue)[..k])
      ensures next == if flusherQueue == [] then None else Some(flusherQueue[0].f)
    {
      ghost var queue := flusherQueue;
      next := None;
      ghost var k := 0;
      while flusherQueue != []
        invariant k <= |queue| && flusherQueue == queue[k..]
        invariant next == None
        invariant completed == old(completed) + Flushers(queue[..k])
        invariant LeadLength(queue, flushColor) == k + LeadLength(flusherQueue, flushColor)
        decreases |flusherQueue|
      {
        var head := flusherQueue[0];
        if head.color != flushColor {
          next := Some(head.f);
          break;
        }
        assert queue[..k + 1] == queue[..k] + [head];
        FlushersPlus(queue[..k], head);
        flusherQueue := flusherQueue[1..];
        completed := completed + {head.f};
        k := k + 1;
      }
    }

    /** The top of the cascade loop in __flush_workqueue(). */
    method CompleteFinishedColor()
      requires colors > 0 && mutex.CascadeTop?
      modifies this`flusherQueue, this`completed, this`flushColor, this`h, this`mutex, this`warned,
        this`flusherColor, this`flusherOverflow, this`workColor
      ensures View() == CompleteColor(old(View()))
    {
      if flusherOverflow == [] {
        var next := CompleteSharers();
        flushColor := NextColor(flushColor);
        h := h.(flushEpoch := h.flushEpoch + 1);
        mutex := CascadeNext(next);
      } else {
        ghost var s := View();
        AdmitOverflow();
        SplicedState(s, View());
      }
    }

    /** The same, when the colour just freed goes to overflowed flushers. */
    method AdmitOverflow()
      requires flusherOverflow != []
      modifies this`flusherQueue, this`completed, this`flushColor, this`h, this`mutex, this`warned,
        this`flusherColor, this`flusherOverflow, this`workColor
      ensures var k := LeadLength(old(flusherQueue), old(flushColor));
              var rest := old(flusherQueue)[k..];
              && flusherQueue == rest + Recolor(old(flusherOverflow), old(workColor))
              && completed == old(completed) + Flushers(old(flusherQueue)[..k])
              && mutex == Prep(0, false, true, false, Spliced(if rest == [] then None else Some(rest[0].f)))
      ensures flusherColor == AssignAll(old(flusherColor), old(flusherOverflow), old(workColor))
      ensures flusherOverflow == [] && workColor == NextColor(old(workColor))
      ensures flushColor == NextColor(old(flushColor))
      ensures warned == (old(warned) || old(flushColor) != NextColor(old(workColor)))
      ensures h == old(h).(flushEpoch := old(h).flushEpoch + 1, workEpoch := old(h).workEpoch + 1,
                           epochOf := AssignAll(old(h).epochOf, old(flusherOverflow), old(h).workEpoch))
    {
      var next := CompleteSharers();
      if flushColor != NextColor(workColor) { warned := true; }
      flushColor := NextColor(flushColor);
      SpliceOverflow();
      mutex := Prep(0, false, true, false, Spliced(next));
    }

    method SpliceOverflow()
      modifies this`flusherColor, this`flusherQueue, this`flusherOverflow, this`workColor, this`h
      ensures flusherColor == AssignAll(old(flusherColor), old(flusherOverflow), old(workColor))
      ensures flusherQueue == old(flusherQueue) + Recolor(old(flusherOverflow), old(workColor))
      ensures flusherOverflow == [] && workColor == NextColor(old(workColor))
      ensures h == old(h).(flushEpoch := old(h).flushEpoch + 1, workEpoch := old(h).workEpoch + 1,
                           epochOf := AssignAll(old(h).epochOf, old(flusherOverflow), old(h).workEpoch))
    {
      flusherColor := AssignAll(flusherColor, flusherOverflow, workColor);
      flusherQueue := flusherQueue + Recolor(flusherOverflow, workColor);
      h := h.(flushEpoch := h.flushEpoch + 1, workEpoch := h.workEpoch + 1,
              epochOf := AssignAll(h.epochOf, flusherOverflow, h.workEpoch));
      workColor := NextColor(workColor);
      flusherOverflow := [];
    }

    /** The bottom of the cascade loop in __flush_workqueue(). */
    method AdvanceCascade()
      requires mutex.CascadeNext?
      modifies this`warned, this`mutex, this`strayed, this`flusherQueue, this`firstFlusher, this`nrPwqsToFlush
      ensures View() == ArmNext(old(View()))
    {
      var next := mutex.next;
      if flusherQueue == [] {
        warned := warned || flushColor != workColor;
        mutex := Unlocked;
        return;
      }
      if next.None? {
        strayed := true;
        return;
      }
      PromoteNext(next.value);
    }

    /** The next flusher becomes the first one, and its colour is to be armed. */
    method PromoteNext(f: Flusher)
      requires mutex == CascadeNext(Some(f)) && flusherQueue != []
      modifies this`warned, this`mutex, this`flusherQueue, this`firstFlusher, this`nrPwqsToFlush
      ensures View() == ArmNext(old(View()))
    {
      warned := warned || flushColor == workColor || f !in flusherColor || flusherColor[f] != flushColor
        || nrPwqsToFlush != 0;
      flusherQueue := Without(flusherQueue, f);
      firstFlusher := Some(f);
      nrPwqsToFlush := 1;
      mutex := Prep(0, true, false, false, ArmedNext);
    }

    /** The end of flush_workqueue_prep_pwqs(): the last pwq may have been done already. */
    method DropArmingCount()
      requires mutex.Prep?
      modifies this`nrPwqsToFlush, this`completed, this`strayed
      ensures nrPwqsToFlush == old(nrPwqsToFlush) - (if mutex.arm then 1 else 0)
      ensures var last := mutex.arm && nrPwqsToFlush == 0;
              && completed == (if last && firstFlusher.Some? then old(completed) + {firstFlusher.value}
                 else old(completed))
              && strayed == (old(strayed) || (last && firstFlusher.None?))
    {
      if mutex.arm {
        nrPwqsToFlush := nrPwqsToFlush - 1;
        if nrPwqsToFlush == 0 {
          if firstFlusher.Some? { completed := completed + {firstFlusher.value}; } else { strayed := true; }
        }
      }
    }

    method NothingToFlush()
      modifies this`flushColor, this`firstFlusher, this`h
      ensures flushColor == workColor && firstFlusher == None && h == old(h).(flushEpoch := old(h).workEpoch)
    {
      flushColor := workColor;
      firstFlusher := None;
      h := h.(flushEpoch := h.workEpoch);
    }

    /** ... and what its four callers do with the result. */
    method ReturnFromPrep()
      requires mutex.Prep? && mutex.cursor == |pwqs|
      requires mutex.arm <==> mutex.after.StartedFirst? || mutex.after.ArmedNext?
      modifies this
      ensures View() == FinishPrep(old(View()))
    {
      if mutex.arm { ReturnFromArming(); } else { ReturnFromAdvancing(); }
    }

    method ReturnFromAdvancing()
      requires mutex.Prep? && !mutex.arm
      requires mutex.after.StartedQueued? || mutex.after.Spliced?
      modifies this`mutex
      ensures View() == FinishPrep(old(View()))
    {
      if mutex.after.StartedQueued? {
        mutex := Unlocked;
      } else {
        mutex := CascadeNext(mutex.after.next);
      }
    }

    method ReturnFromArming()
      requires mutex.Prep? && mutex.arm
      requires mutex.after.StartedFirst? || mutex.after.ArmedNext?
      modifies this
      ensures View() == FinishPrep(old(View()))
    {
      DropArmingCount();
      if mutex.after.StartedFirst? {
        if !mutex.wait { NothingToFlush(); }
        mutex := Unlocked;
      } else {
        CascadeOn(mutex.wait);
      }
    }

    method CascadeOn(wait: bool)
      modifies this`mutex, this`firstFlusher
      ensures mutex == if wait then Unlocked else CascadeTop
      ensures firstFlusher == if wait then old(firstFlusher) else None
    {
      mutex := Unlocked;
      if !wait {
        firstFlusher := None;
        mutex := CascadeTop;
      }
    }

    // ------------------------------------------------------------ the loops, without interference

    /** What the preparation loop and the cascade leave alone of each other. */
    twostate predicate SameLists()
      reads this
    {
      && flusherQueue == old(flusherQueue) && flusherOverflow == old(flusherOverflow) && strayed == old(strayed)
      && h.workEpoch == old(h.workEpoch) && |pwqs| == old(|pwqs|)
    }

    method PrepareNext()
      requires Valid() && Enabled(View(), PrepPwq)
      modifies this`warned, this`nrPwqsToFlush, this`pwqs, this`mutex, this`h
      ensures Valid() && SameLists() && h.flushEpoch == old(h.flushEpoch)
      ensures mutex.Prep? && mutex == old(mutex).(cursor := old(mutex.cursor) + 1, wait := mutex.wait)
    {
      PreparePwq();
      StaysValid(PrepPwq);
    }

    method LeavePrep()
      requires Valid() && Enabled(View(), EndPrep) && (mutex.after.Spliced? || mutex.after.ArmedNext?)
      modifies this
      ensures Valid() && SameLists() && h.flushEpoch == old(h.flushEpoch)
      ensures old(mutex.after.Spliced?) ==> mutex == CascadeNext(old(mutex.after.next))
      ensures old(mutex.after.ArmedNext?) ==> mutex.Unlocked? || mutex.CascadeTop?
    {
      ReturnFromPrep();
      StaysValid(EndPrep);
    }

    /** flush_workqueue_prep_pwqs() as the cascade calls it */
    method FlushWorkqueuePrepPwqs()
      requires Valid() && !strayed && mutex.Prep? && (mutex.after.Spliced? || mutex.after.ArmedNext?)
      modifies this
      ensures Valid() && SameLists() && h.flushEpoch == old(h.flushEpoch)
      ensures old(mutex.after.Spliced?) ==> mutex == CascadeNext(old(mutex.after.next))
      ensures old(mutex.after.ArmedNext?) ==> mutex.Unlocked? || mutex.CascadeTop?
    {
      InvSized(View());
      while mutex.cursor < |pwqs|
        invariant Valid() && SameLists() && h.flushEpoch == old(h.flushEpoch) && WellSized(View())
        invariant mutex.Prep? && mutex == old(mutex).(cursor := mutex.cursor, wait := mutex.wait)
        invariant mutex.cursor <= |pwqs|
        decreases |pwqs| - mutex.cursor
      {
        PrepareNext();
        InvSized(View());
      }
      LeavePrep();
    }


    method FinishColor()
      requires Valid() && !strayed && mutex.CascadeTop?
      modifies this
      ensures Valid() && !strayed && flusherOverflow == [] && h.flushEpoch == old(h.flushEpoch) + 1
      ensures old(flusherOverflow) == [] ==> mutex.CascadeNext? && h.workEpoch == old(h.workEpoch)
      ensures old(flusherOverflow) != [] ==> mutex.Prep? && mutex.after.Spliced?
    {
      InvSized(View());
      CompleteFinishedColor();
      StaysValid(CascadeComplete);
    }

    method ArmNextFlusher()
      requires Valid() && !strayed && mutex.CascadeNext? && colors > 2
      modifies this
      ensures Valid() && !strayed && flusherOverflow == old(flusherOverflow) && h == old(h)
      ensures mutex.Unlocked? || (mutex.Prep? && mutex.after.ArmedNext?)
    {
      InvSized(View());
      AdvanceCascade();
      StaysValid(CascadeAdvance);
    }

    method CascadeOnce()
      requires Valid() && !strayed && mutex.CascadeTop? && colors > 2
      modifies this
      ensures Valid() && !strayed && (mutex.CascadeTop? || mutex.Unlocked?)
      ensures flusherOverflow == [] && h.flushEpoch == old(h.flushEpoch) + 1
      ensures old(flusherOverflow) == [] ==> h.workEpoch == old(h.workEpoch)
    {
      FinishColor();
      if mutex.Prep? { FlushWorkqueuePrepPwqs(); }
      ArmNextFlusher();
      if mutex.Prep? { FlushWorkqueuePrepPwqs(); }
    }

    /** The cascade of __flush_workqueue(): with more than two colours it ends, and gives the mutex back. */
    method Cascade()
      requires Valid() && !strayed && mutex.CascadeTop? && colors > 2
      modifies this
      ensures Valid() && !strayed && mutex.Unlocked?
      ensures firstFlusher.None? ==> flusherQueue == [] && flusherOverflow == [] && flushColor == workColor
    {
      while mutex.CascadeTop?
        invariant Valid() && !strayed && (mutex.CascadeTop? || mutex.Unlocked?)
        decreases |flusherOverflow|, h.workEpoch - h.flushEpoch
      {
        EpochsOrdered(View());
        CascadeOnce();
        EpochsOrdered(View());
      }
      RingEndsOf(View());
    }

  }

  lemma EpochsOrdered(s: State)
    requires Inv(s)
    ensures s.h.flushEpoch <= s.h.workEpoch
  {
  }

  function ArmedAt(s: State): State
    requires s.holder.Prep? && s.holder.cursor < |s.pwqs| && s.flushColor < |s.pwqs[s.holder.cursor].inFlight|
  {
    var c := s.holder.cursor;
    var q := s.pwqs[c];
    if !s.holder.arm then s
    else if q.inFlight[s.flushColor] <= 0 then s.(warned := s.warned || q.flushColor != -1)
    else
      s.(warned := s.warned || q.flushColor != -1, pwqs := s.pwqs[c := q.(flushColor := s.flushColor)],
         toFlush := s.toFlush + 1, holder := s.holder.(wait := true))
  }

  function AdvancedAt(s: State): State
    requires s.holder.Prep? && s.holder.cursor < |s.pwqs| == |s.h.pwqEpoch| && s.colors > 0
  {
    var c := s.holder.cursor;
    var q := s.pwqs[c];
    if !s.holder.advance then s
    else
      s.(warned := s.warned || s.workColor != FlushProtocol.NextColor(s, q.workColor),
         pwqs := s.pwqs[c := q.(workColor := s.workColor)], h := s.h.(pwqEpoch := s.h.pwqEpoch[c := s.h.workEpoch]))
  }

  lemma PreparedInHalves(s: State)
    requires s.holder.Prep? && s.holder.cursor < |s.pwqs| == |s.h.pwqEpoch| && s.colors > 0
    requires s.flushColor < |s.pwqs[s.holder.cursor].inFlight|
    ensures var t := AdvancedAt(ArmedAt(s));
            t.holder.Prep? && t.(holder := t.holder.(cursor := t.holder.cursor + 1)) == PrepareOne(s)
  {
    var c := s.holder.cursor;
    assert s.pwqs[c := s.pwqs[c]] == s.pwqs;
  }

  /** The fields CompleteColor sets when there is overflow, one by one. */
  lemma SplicedState(s: State, t: State)
    requires s.overflow != []
    requires var k := LeadLength(s.queue, s.flushColor);
             var rest := s.queue[k..];
             && t.queue == rest + Recolor(s.overflow, s.workColor)
             && t.done == s.done + Flushers(s.queue[..k])
             && t.holder == Prep(0, false, true, false, Spliced(if rest == [] then None else Some(rest[0].f)))
    requires t.colorOf == AssignAll(s.colorOf, s.overflow, s.workColor)
    requires t.overflow == [] && t.workColor == FlushProtocol.NextColor(s, s.workColor)
    requires t.flushColor == FlushProtocol.NextColor(s, s.flushColor)
    requires t.warned == (s.warned || s.flushColor != FlushProtocol.NextColor(s, s.workColor))
    requires t.h == s.h.(flushEpoch := s.h.flushEpoch + 1, workEpoch := s.h.workEpoch + 1,
                         epochOf := AssignAll(s.h.epochOf, s.overflow, s.h.workEpoch))
    requires t.colors == s.colors && t.pwqs == s.pwqs && t.toFlush == s.toFlush && t.first == s.first
    requires t.wake == s.wake && t.strayed == s.strayed && s.colors > 0
    ensures t == CompleteColor(s)
  {
  }

  lemma FlushersPlus(q: seq<Waiting>, w: Waiting)
    ensures Flushers(q + [w]) == Flushers(q) + {w.f}
  {
    var r := q + [w];
    forall f | f in Flushers(q) + {w.f}
      ensures f in Flushers(r)
    {
      if f == w.f {
        assert r[|q|] == w;
      } else {
        var i :| 0 <= i < |q| && q[i].f == f;
        assert r[i].f == f;
      }
    }
  }
}
