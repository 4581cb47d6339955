/**
 Safety of the flush-colour protocol over every run.

 The proof replaces ring colours by epochs that never wrap: the live epochs are
 the interval [flushEpoch, workEpoch], shorter than the ring, so inside it equal
 colours mean equal epochs.
 */
module FlushSafety {
  import opened Maybe
  import opened FlushProtocol

  // ----- ring arithmetic -----

  /** The ring colour of an epoch: the epoch modulo the number of colours. */
  function Color(n: nat, e: nat): (c: nat)
    requires n > 0
    ensures c < n
  {
    if e < n then e else Color(n, e - n)
  }

  lemma NextColorIsModular(s: State, c: nat)
    requires c < s.colors
    ensures NextColor(s, c) == (c + 1) % s.colors
  {
  }

  lemma {:induction false} ColorSucc(n: nat, e: nat)
    requires n > 0
    ensures Color(n, e + 1) == if Color(n, e) + 1 == n then 0 else Color(n, e) + 1
  {
    if e >= n { ColorSucc(n, e - n); }
  }

  /** Two epochs less than a ring apart have the same colour only if they are equal. */
  lemma {:induction false} SameColor(n: nat, a: nat, b: nat)
    requires n > 0 && a <= b <= a + n
    ensures Color(n, a) == Color(n, b) <==> b == a || b == a + n
  {
    if a >= n { SameColor(n, a - n, b - n); }
  }

  // ----- the invariant -----

  /** The items counted in nr_in_flight[c] of pwq p. */
  function At(live: map<WorkId, Item>, p: nat, c: nat): set<WorkId> {
    set id | id in live && live[id].pwq == p && live[id].color == c
  }

  function Armed(pwqs: seq<Pwq>): set<nat> {
    set p | 0 <= p < |pwqs| && pwqs[p].flushColor != -1
  }

  predicate Arming(s: State) { s.holder.Prep? && s.holder.arm }
  predicate Flushing(s: State) { s.first.Some? || s.holder.CascadeTop? }

  /** First pwq that has not been moved to the newest work colour yet. */
  function Lag(s: State): nat {
    if s.holder.Prep? && s.holder.advance then s.holder.cursor else |s.pwqs|
  }

  /** First pwq that has not been looked at by the arming pass yet. */
  function Unseen(s: State): nat {
    if Arming(s) then s.holder.cursor else |s.pwqs|
  }

  /** First epoch that must still have a flusher waiting in the queue. */
  function FirstQueued(s: State): nat {
    if Flushing(s) then s.h.flushEpoch + 1 else s.h.flushEpoch
  }

  /** Live colours are the ring segment from flush_color to work_color. */
  predicate Ring(n: nat, flushEpoch: nat, workEpoch: nat, flushColor: nat, workColor: nat, flushing: bool) {
    && n >= 2
    && flushEpoch <= workEpoch < flushEpoch + n
    && flushColor == Color(n, flushEpoch)
    && workColor == Color(n, workEpoch)
    && (flushing ==> flushEpoch < workEpoch)
  }

  predicate PwqColors(n: nat, pwqs: seq<Pwq>, pwqEpoch: seq<nat>, workEpoch: nat, lag: nat) {
    && n > 0
    && |pwqEpoch| == |pwqs|
    && forall p :: 0 <= p < |pwqs| ==>
         && pwqs[p].workColor == Color(n, pwqEpoch[p])
         && pwqEpoch[p] == if p >= lag then workEpoch - 1 else workEpoch
  }

  predicate ItemColors(n: nat, live: map<WorkId, Item>, pwqEpoch: seq<nat>, flushEpoch: nat) {
    && n > 0
    && forall id :: id in live ==>
         && live[id].pwq < |pwqEpoch|
         && flushEpoch <= live[id].epoch <= pwqEpoch[live[id].pwq]
         && live[id].color == Color(n, live[id].epoch)
  }

  predicate Counts(n: nat, pwqs: seq<Pwq>, live: map<WorkId, Item>) {
    forall p :: 0 <= p < |pwqs| ==> PwqCounts(n, pwqs[p], live, p)
  }

  predicate PwqCounts(n: nat, q: Pwq, live: map<WorkId, Item>, p: nat) {
    && |q.inFlight| == n
    && forall c :: 0 <= c < n ==> q.inFlight[c] == |At(live, p, c)|
  }

  /** What the mutex holder may be doing, and the list cursor it carries. */
  predicate HolderOk(s: State) {
    match s.holder
    case Unlocked => s.first.None? ==> s.queue == [] && s.overflow == [] && s.h.flushEpoch == s.h.workEpoch
    case CascadeTop => s.first.None?
    case CascadeNext(next) => s.first.None? && CursorOk(s, next)
    case Prep(cursor, arm, advance, wait, after) =>
      && cursor <= |s.pwqs|
      && (arm && !wait ==> s.toFlush == 1)
      && match after
         case StartedFirst => arm && advance && s.first.Some? && s.queue == [] && s.overflow == []
                              && s.h.workEpoch == s.h.flushEpoch + 1
         case StartedQueued => !arm && advance && s.first.Some? && s.h.flushEpoch + 1 < s.h.workEpoch
         case Spliced(next) => !arm && advance && s.first.None? && s.h.flushEpoch < s.h.workEpoch && CursorOk(s, next)
         case ArmedNext => arm && !advance && s.first.Some?
  }

  predicate CursorOk(s: State, next: Option<Flusher>) {
    && s.overflow == []
    && match next
       case Some(f) => s.queue != [] && s.queue[0].f == f
       case None => s.queue == [] || s.colors == 2
  }

  /** Armed pwqs are exactly those with work of the flush colour, among those already looked at. */
  predicate Tips(n: nat, pwqs: seq<Pwq>, flushColor: nat, unseen: nat, flushing: bool) {
    && flushColor < n
    && (forall p :: 0 <= p < |pwqs| ==> |pwqs[p].inFlight| == n && TipOk(pwqs[p], flushColor, p < unseen && flushing))
    && (forall p :: unseen <= p < |pwqs| ==> pwqs[p].flushColor == -1)
  }

  predicate TipOk(q: Pwq, flushColor: nat, seen: bool)
    requires flushColor < |q.inFlight|
  {
    && (q.flushColor != -1 ==> q.flushColor == flushColor && q.inFlight[flushColor] > 0)
    && (seen && q.inFlight[flushColor] > 0 ==> q.flushColor != -1)
  }

  /** nr_pwqs_to_flush and the completion it triggers. */
  predicate Completion(s: State) {
    && s.toFlush == |Armed(s.pwqs)| + (if Arming(s) then 1 else 0)
    && (s.first.None? ==> s.toFlush == 0 && !s.wake)
    && (s.first.Some? && !Arming(s) ==> (s.toFlush == 0 <==> s.wake || s.first.value in s.done))
    && (Arming(s) ==> !s.wake && s.first.Some? && s.first.value !in s.done)
    && (s.wake ==> s.first.Some? && s.first.value !in s.done)
  }

  /** Queued flushers are in ring order, without gaps, up to the newest colour. */
  predicate QueueOrder(n: nat, queue: seq<Waiting>, epochOf: map<Flusher, nat>, from: nat, flushEpoch: nat,
                       workEpoch: nat) {
    && n > 0
    && (forall i :: 0 <= i < |queue| ==>
          && queue[i].f in epochOf
          && queue[i].color == Color(n, epochOf[queue[i].f])
          && flushEpoch <= epochOf[queue[i].f] < workEpoch)
    && (forall i :: 0 <= i < |queue| - 1 ==> Adjacent(queue, epochOf, i))
    && (if queue == [] then workEpoch <= from
        else epochOf[queue[0].f] <= from && epochOf[queue[|queue| - 1].f] + 1 == workEpoch)
  }

  predicate Adjacent(queue: seq<Waiting>, epochOf: map<Flusher, nat>, i: nat)
    requires i + 1 < |queue| && queue[i].f in epochOf && queue[i + 1].f in epochOf
  {
    epochOf[queue[i].f] <= epochOf[queue[i + 1].f] <= epochOf[queue[i].f] + 1
  }

  predicate QueueMembers(queue: seq<Waiting>, first: Option<Flusher>, done: set<Flusher>) {
    && (forall i, j :: 0 <= i < j < |queue| ==> queue[i].f != queue[j].f)
    && (forall i :: 0 <= i < |queue| ==> queue[i].f !in done && first != Some(queue[i].f))
  }

  predicate FirstOk(s: State) {
    s.first.Some? ==>
      && s.first.value in s.h.epochOf && s.first.value in s.colorOf
      && s.h.epochOf[s.first.value] == s.h.flushEpoch
  }

  /** The overflow list is used only while the ring is full. */
  predicate OverflowOk(s: State) {
    && (s.overflow != [] ==> s.h.workEpoch + 1 == s.h.flushEpoch + s.colors && Flushing(s))
  }

  predicate Members(overflow: seq<Flusher>, colorOf: map<Flusher, nat>, epochOf: map<Flusher, nat>,
                    before: map<Flusher, set<WorkId>>, done: set<Flusher>, n: nat) {
    && (forall i :: 0 <= i < |overflow| ==> overflow[i] in before && overflow[i] !in colorOf)
    && (forall i, j :: 0 <= i < j < |overflow| ==> overflow[i] != overflow[j])
    && colorOf.Keys == epochOf.Keys
    && colorOf.Keys <= before.Keys
    && done <= colorOf.Keys
    && n > 0
    && (forall f :: f in colorOf ==> colorOf[f] == Color(n, epochOf[f]))
  }

  /** A flush waits for a colour no older than anything queued before it was called. */
  predicate Snapshots(h: History) {
    && h.live.Keys !! h.retired
    && (forall f :: f in h.before ==> h.before[f] <= h.live.Keys + h.retired)
    && (forall f, id :: f in h.epochOf && f in h.before && id in h.before[f] && id in h.live ==>
          h.live[id].epoch <= h.epochOf[f])
  }

  /** A flush that is over leaves nothing of what was queued before it. */
  predicate DoneMeansDone(h: History, done: set<Flusher>) {
    forall f :: f in done && f in h.before ==> h.before[f] !! h.live.Keys
  }

  predicate RingOf(s: State) {
    Ring(s.colors, s.h.flushEpoch, s.h.workEpoch, s.flushColor, s.workColor, Flushing(s))
  }

  predicate ColorsOf(s: State) {
    && PwqColors(s.colors, s.pwqs, s.h.pwqEpoch, s.h.workEpoch, Lag(s))
    && ItemColors(s.colors, s.h.live, s.h.pwqEpoch, s.h.flushEpoch)
  }

  predicate TipsOf(s: State) { Tips(s.colors, s.pwqs, s.flushColor, Unseen(s), Flushing(s)) }

  predicate QueueOf(s: State) {
    && QueueOrder(s.colors, s.queue, s.h.epochOf, FirstQueued(s), s.h.flushEpoch, s.h.workEpoch)
    && QueueMembers(s.queue, s.first, s.done)
  }

  predicate MembersOf(s: State) { Members(s.overflow, s.colorOf, s.h.epochOf, s.h.before, s.done, s.colors) }

  predicate Work(s: State) {
    ColorsOf(s) && Counts(s.colors, s.pwqs, s.h.live) && TipsOf(s)
  }

  predicate Control(s: State) {
    RingOf(s) && HolderOk(s) && Completion(s) && FirstOk(s) && OverflowOk(s)
  }

  predicate Lists(s: State) { QueueOf(s) && MembersOf(s) }

  predicate Past(s: State) { Snapshots(s.h) && DoneMeansDone(s.h, s.done) }

  predicate Quiet(s: State) { !s.warned && (s.strayed ==> s.colors == 2) }

  predicate Inv(s: State) { Work(s) && Control(s) && Lists(s) && Past(s) && Quiet(s) }

  lemma ListsFrame(s: State, t: State)
    requires Lists(s)
    requires t.colors == s.colors && t.queue == s.queue && t.h.epochOf == s.h.epochOf
    requires FirstQueued(t) == FirstQueued(s)
    requires t.h.flushEpoch == s.h.flushEpoch && t.h.workEpoch == s.h.workEpoch && t.first == s.first
    requires t.done == s.done
    requires t.overflow == s.overflow && t.colorOf == s.colorOf && t.h.before == s.h.before
    ensures Lists(t)
  {
  }

  lemma InvSized(s: State)
    requires Inv(s)
    ensures WellSized(s)
  {
    forall p | 0 <= p < |s.pwqs|
      ensures |s.pwqs[p].inFlight| == s.colors && s.pwqs[p].workColor < s.colors
    {
      assert PwqCounts(s.colors, s.pwqs[p], s.h.live, p);
    }
  }

  lemma InitOk(s: State)
    requires Init(s)
    ensures Inv(s)
  {
    forall p | 0 <= p < |s.pwqs|
      ensures PwqCounts(s.colors, s.pwqs[p], s.h.live, p)
    {
      forall c | 0 <= c < s.colors
        ensures s.pwqs[p].inFlight[c] == |At(s.h.live, p, c)|
      {
        assert At(s.h.live, p, c) == {};
      }
    }
    assert Armed(s.pwqs) == {};
  }

  // ----- items come and go -----

  lemma AtInsert(live: map<WorkId, Item>, id: WorkId, it: Item, p: nat, c: nat)
    requires id !in live
    ensures |At(live[id := it], p, c)| == |At(live, p, c)| + (if it.pwq == p && it.color == c then 1 else 0)
  {
    var l2 := live[id := it];
    if it.pwq == p && it.color == c {
      assert At(l2, p, c) == At(live, p, c) + {id};
    } else {
      assert At(l2, p, c) == At(live, p, c);
    }
  }

  lemma AtRemove(live: map<WorkId, Item>, id: WorkId, p: nat, c: nat)
    requires id in live
    ensures |At(live - {id}, p, c)| == |At(live, p, c)| - (if live[id].pwq == p && live[id].color == c then 1 else 0)
  {
    var l2 := live - {id};
    if live[id].pwq == p && live[id].color == c {
      assert At(l2, p, c) == At(live, p, c) - {id};
    } else {
      assert At(l2, p, c) == At(live, p, c);
    }
  }

  /** nr_in_flight of a live item's colour is positive. */
  lemma LiveCounted(s: State, id: WorkId)
    requires Counts(s.colors, s.pwqs, s.h.live) && id in s.h.live
    requires s.h.live[id].pwq < |s.pwqs| && s.h.live[id].color < s.colors
    ensures PwqCounts(s.colors, s.pwqs[s.h.live[id].pwq], s.h.live, s.h.live[id].pwq)
    ensures s.pwqs[s.h.live[id].pwq].inFlight[s.h.live[id].color] > 0
  {
    var it := s.h.live[id];
    assert id in At(s.h.live, it.pwq, it.color);
  }

  lemma BumpCounts(s: State, id: WorkId, it: Item)
    requires WellSized(s) && Counts(s.colors, s.pwqs, s.h.live)
    requires it.pwq < |s.pwqs| && it.color < s.colors && id !in s.h.live
    ensures Counts(s.colors, Bump(s, id, it).pwqs, Bump(s, id, it).h.live)
  {
    var t := Bump(s, id, it);
    forall p | 0 <= p < |t.pwqs|
      ensures PwqCounts(s.colors, t.pwqs[p], t.h.live, p)
    {
      assert PwqCounts(s.colors, s.pwqs[p], s.h.live, p);
      forall c | 0 <= c < s.colors
        ensures t.pwqs[p].inFlight[c] == |At(t.h.live, p, c)|
      {
        AtInsert(s.h.live, id, it, p, c);
      }
    }
  }

  /** An added item must not put new work under a flush tip that is not armed. */
  predicate SafeToAdd(s: State, it: Item) {
    && it.pwq < |s.pwqs| && |s.h.pwqEpoch| == |s.pwqs| && s.colors > 0
    && it.color == Color(s.colors, it.epoch)
    && s.h.flushEpoch <= it.epoch <= s.h.pwqEpoch[it.pwq]
    && s.flushColor < |s.pwqs[it.pwq].inFlight|
    && (Flushing(s) && it.pwq < Unseen(s) ==>
          it.epoch != s.h.flushEpoch || s.pwqs[it.pwq].inFlight[s.flushColor] > 0)
  }

  lemma BumpTips(s: State, id: WorkId, it: Item)
    requires WellSized(s) && RingOf(s) && ColorsOf(s) && TipsOf(s) && SafeToAdd(s, it)
    ensures TipsOf(Bump(s, id, it))
    ensures Armed(Bump(s, id, it).pwqs) == Armed(s.pwqs)
  {
    var t := Bump(s, id, it);
    SameColor(s.colors, s.h.flushEpoch, it.epoch);
    assert it.epoch <= s.h.workEpoch;
    assert TipOk(s.pwqs[it.pwq], s.flushColor, it.pwq < Unseen(s) && Flushing(s));
    forall p | 0 <= p < |t.pwqs|
      ensures |t.pwqs[p].inFlight| == s.colors && TipOk(t.pwqs[p], s.flushColor, p < Unseen(s) && Flushing(s))
    {
      assert TipOk(s.pwqs[p], s.flushColor, p < Unseen(s) && Flushing(s));
    }
  }

  lemma BumpHistory(s: State, id: WorkId, it: Item)
    requires WellSized(s) && ColorsOf(s) && Past(s) && SafeToAdd(s, it) && id !in s.h.live && id !in s.h.retired
    requires MembersOf(s)
    ensures ColorsOf(Bump(s, id, it)) && Past(Bump(s, id, it))
  {
    var t := Bump(s, id, it);
    assert Snapshots(t.h);
  }

  lemma BumpWork(s: State, id: WorkId, it: Item)
    requires WellSized(s) && Work(s) && RingOf(s) && Past(s) && MembersOf(s)
    requires SafeToAdd(s, it) && id !in s.h.live && id !in s.h.retired
    ensures Work(Bump(s, id, it)) && Past(Bump(s, id, it))
    ensures Armed(Bump(s, id, it).pwqs) == Armed(s.pwqs)
  {
    BumpCounts(s, id, it);
    BumpTips(s, id, it);
    BumpHistory(s, id, it);
  }

  lemma BumpOk(s: State, id: WorkId, it: Item)
    requires Inv(s) && WellSized(s) && !s.strayed && id !in s.h.live && id !in s.h.retired && SafeToAdd(s, it)
    ensures Inv(Bump(s, id, it))
  {
    BumpWork(s, id, it);
  }

  lemma QueueWorkOk(s: State, id: WorkId, p: nat)
    requires Inv(s) && Enabled(s, QueueWork(id, p))
    ensures Inv(Apply(s, QueueWork(id, p)))
  {
    BumpOk(s, id, Item(p, s.pwqs[p].workColor, s.h.pwqEpoch[p]));
  }

  lemma InsertBarrierOk(s: State, id: WorkId, target: WorkId)
    requires Inv(s) && Enabled(s, InsertBarrier(id, target))
    ensures Inv(Apply(s, InsertBarrier(id, target)))
  {
    LiveCounted(s, target);
    BumpOk(s, id, s.h.live[target]);
  }

  lemma ArmedChange(pwqs: seq<Pwq>, p: nat, q: Pwq)
    requires p < |pwqs|
    ensures |Armed(pwqs[p := q])| == |Armed(pwqs)| + (if q.flushColor == -1 then 0 else 1)
                                     - (if pwqs[p].flushColor == -1 then 0 else 1)
  {
    var rest := Armed(pwqs) - {p};
    assert Armed(pwqs[p := q]) == if q.flushColor == -1 then rest else rest + {p};
    assert Armed(pwqs) == if pwqs[p].flushColor == -1 then rest else rest + {p};
  }

  lemma DropCounts(s: State, id: WorkId)
    requires Counts(s.colors, s.pwqs, s.h.live) && Enabled(s, Retire(id))
    ensures Counts(s.colors, Drop(s, id).pwqs, Drop(s, id).h.live)
  {
    var t := Drop(s, id);
    forall p | 0 <= p < |t.pwqs|
      ensures PwqCounts(s.colors, t.pwqs[p], t.h.live, p)
    {
      assert PwqCounts(s.colors, s.pwqs[p], s.h.live, p);
      forall c | 0 <= c < s.colors
        ensures t.pwqs[p].inFlight[c] == |At(t.h.live, p, c)|
      {
        AtRemove(s.h.live, id, p, c);
      }
    }
  }

  lemma DropTips(s: State, id: WorkId)
    requires Enabled(s, Retire(id)) && TipsOf(s)
    requires s.pwqs[s.h.live[id].pwq].inFlight[s.h.live[id].color] > 0
    ensures TipsOf(Drop(s, id))
  {
    var t := Drop(s, id);
    forall p | 0 <= p < |t.pwqs|
      ensures |t.pwqs[p].inFlight| == s.colors && TipOk(t.pwqs[p], s.flushColor, p < Unseen(s) && Flushing(s))
    {
      assert TipOk(s.pwqs[p], s.flushColor, p < Unseen(s) && Flushing(s));
    }
  }

  lemma DropCompletion(s: State, id: WorkId)
    requires Enabled(s, Retire(id)) && Completion(s) && HolderOk(s) && TipsOf(s)
    requires s.pwqs[s.h.live[id].pwq].inFlight[s.h.live[id].color] > 0
    ensures Completion(Drop(s, id)) && HolderOk(Drop(s, id))
  {
    var t := Drop(s, id);
    var p := s.h.live[id].pwq;
    ArmedChange(s.pwqs, p, t.pwqs[p]);
    assert TipOk(s.pwqs[p], s.flushColor, p < Unseen(s) && Flushing(s));
    if s.pwqs[p].flushColor != -1 {
      assert p in Armed(s.pwqs);
    }
  }

  lemma DropColors(s: State, id: WorkId)
    requires Enabled(s, Retire(id)) && ColorsOf(s)
    ensures ColorsOf(Drop(s, id))
  {
  }

  lemma DropPast(s: State, id: WorkId)
    requires Enabled(s, Retire(id)) && Past(s)
    ensures Past(Drop(s, id))
  {
  }

  lemma RetireWork(s: State, id: WorkId)
    requires Work(s) && RingOf(s) && Enabled(s, Retire(id))
    ensures Work(Drop(s, id))
  {
    LiveCounted(s, id);
    DropCounts(s, id);
    DropTips(s, id);
    DropColors(s, id);
  }

  lemma RetireControl(s: State, id: WorkId)
    requires Work(s) && Control(s) && Enabled(s, Retire(id))
    ensures Control(Drop(s, id))
  {
    LiveCounted(s, id);
    DropCompletion(s, id);
  }

  lemma RetireLists(s: State, id: WorkId)
    requires Lists(s) && Enabled(s, Retire(id))
    ensures Lists(Drop(s, id))
  {
    ListsFrame(s, Drop(s, id));
  }

  lemma RetireOk(s: State, id: WorkId)
    requires Inv(s) && Enabled(s, Retire(id))
    ensures Inv(Apply(s, Retire(id)))
  {
    RetireWork(s, id);
    RetireControl(s, id);
    RetireLists(s, id);
    DropPast(s, id);
  }

  // ----- completions -----

  /** With no armed pwq left behind the arming pass, the flush colour is drained. */
  lemma Drained(s: State)
    requires Work(s) && RingOf(s) && Armed(s.pwqs) == {} && Flushing(s) && Unseen(s) >= |s.pwqs|
    ensures forall p :: 0 <= p < |s.pwqs| ==> s.pwqs[p].inFlight[s.flushColor] <= 0
    ensures forall id :: id in s.h.live ==> s.h.live[id].epoch > s.h.flushEpoch
  {
    forall p | 0 <= p < |s.pwqs|
      ensures s.pwqs[p].inFlight[s.flushColor] <= 0
    {
      assert TipOk(s.pwqs[p], s.flushColor, p < Unseen(s) && Flushing(s));
      assert p !in Armed(s.pwqs);
    }
    forall id | id in s.h.live
      ensures s.h.live[id].epoch > s.h.flushEpoch
    {
      LiveCounted(s, id);
    }
  }

  /** Flushers waiting for a drained colour may be told that they are done. */
  lemma DonePast(h: History, done: set<Flusher>, more: set<Flusher>, epoch: nat)
    requires Snapshots(h) && DoneMeansDone(h, done)
    requires forall f :: f in more ==> f in h.epochOf && h.epochOf[f] <= epoch
    requires forall id :: id in h.live ==> h.live[id].epoch > epoch
    ensures DoneMeansDone(h, done + more)
  {
  }

  lemma WorkFrame(s: State, t: State)
    requires Work(s)
    requires t.colors == s.colors && t.pwqs == s.pwqs && t.h.pwqEpoch == s.h.pwqEpoch && t.h.live == s.h.live
    requires t.h.workEpoch == s.h.workEpoch && t.h.flushEpoch == s.h.flushEpoch && t.flushColor == s.flushColor
    requires Lag(t) == Lag(s) && Unseen(t) == Unseen(s) && Flushing(t) == Flushing(s)
    ensures Work(t)
  {
  }

  lemma NoneArmed(s: State)
    requires |Armed(s.pwqs)| == 0
    ensures Armed(s.pwqs) == {}
    ensures forall p :: 0 <= p < |s.pwqs| ==> s.pwqs[p].flushColor == -1
  {
    forall p | 0 <= p < |s.pwqs|
      ensures s.pwqs[p].flushColor == -1
    {
      assert p !in Armed(s.pwqs);
    }
  }

  /** The lists stay in order when the first flusher is completed, and when it steps down. */
  lemma FirstDoneLists(s: State, t: State)
    requires Lists(s) && FirstOk(s) && s.first.Some?
    requires t.colors == s.colors && t.queue == s.queue && t.h.epochOf == s.h.epochOf
    requires FirstQueued(t) == FirstQueued(s)
    requires t.h.flushEpoch == s.h.flushEpoch && t.h.workEpoch == s.h.workEpoch
    requires t.overflow == s.overflow && t.colorOf == s.colorOf && t.h.before == s.h.before
    requires t.first == s.first || t.first == None
    requires t.done == s.done || t.done == s.done + {s.first.value}
    ensures Lists(t)
  {
  }

  lemma CompleteFirstOk(s: State)
    requires Inv(s) && Enabled(s, CompleteFirst)
    ensures Inv(Apply(s, CompleteFirst))
  {
    var t := Apply(s, CompleteFirst);
    NoneArmed(s);
    Drained(s);
    WorkFrame(s, t);
    FirstDoneLists(s, t);
    DonePast(s.h, s.done, {s.first.value}, s.h.flushEpoch);
  }

  lemma CallFlushPast(s: State, f: Flusher)
    requires Past(s) && MembersOf(s) && f !in s.h.before
    ensures Past(s.(h := s.h.(before := s.h.before[f := s.h.live.Keys])))
  {
  }

  lemma CallFlushLists(s: State, f: Flusher)
    requires Lists(s) && f !in s.h.before
    ensures Lists(s.(h := s.h.(before := s.h.before[f := s.h.live.Keys])))
  {
  }

  lemma CallFlushOk(s: State, f: Flusher)
    requires Inv(s) && Enabled(s, CallFlush(f))
    ensures Inv(Apply(s, CallFlush(f)))
  {
    WorkFrame(s, Apply(s, CallFlush(f)));
    CallFlushLists(s, f);
    CallFlushPast(s, f);
  }

  // ----- the start-to-wait phase -----

  lemma RingFull(s: State)
    requires RingOf(s)
    ensures NextColor(s, s.workColor) == Color(s.colors, s.h.workEpoch + 1)
    ensures NextColor(s, s.workColor) == s.flushColor <==> s.h.workEpoch + 1 == s.h.flushEpoch + s.colors
    ensures s.flushColor == s.workColor <==> s.h.flushEpoch == s.h.workEpoch
  {
    ColorSucc(s.colors, s.h.workEpoch);
    SameColor(s.colors, s.h.flushEpoch, s.h.workEpoch + 1);
    SameColor(s.colors, s.h.flushEpoch, s.h.workEpoch);
  }

  lemma JoinOverflow(s: State, f: Flusher)
    requires Lists(s) && Enabled(s, StartFlush(f)) && NextColor(s, s.workColor) == s.flushColor
    ensures Lists(Start(s, f))
  {
  }

  lemma JoinOverflowOk(s: State, f: Flusher)
    requires Inv(s) && Enabled(s, StartFlush(f)) && NextColor(s, s.workColor) == s.flushColor
    ensures Inv(Start(s, f))
  {
    RingFull(s);
    WorkFrame(s, Start(s, f));
    JoinOverflow(s, f);
  }

  lemma StartFirstWork(s: State, f: Flusher)
    requires Work(s) && Control(s) && s.holder.Unlocked? && s.first.None? && NextColor(s, s.workColor) != s.flushColor
    ensures Work(Start(s, f))
  {
    NoneArmed(s);
    var t := Start(s, f);
    forall p | 0 <= p < |t.pwqs|
      ensures |t.pwqs[p].inFlight| == t.colors && TipOk(t.pwqs[p], t.flushColor, false)
    {
      assert TipOk(s.pwqs[p], s.flushColor, p < Unseen(s) && Flushing(s));
    }
  }

  lemma StartQueuedWork(s: State, f: Flusher)
    requires Work(s) && Control(s) && s.holder.Unlocked? && s.first.Some? && NextColor(s, s.workColor) != s.flushColor
    ensures Work(Start(s, f))
  {
  }

  lemma StartControl(s: State, f: Flusher)
    requires Control(s) && s.holder.Unlocked? && NextColor(s, s.workColor) != s.flushColor
    requires f !in s.done && f !in s.colorOf
    ensures Control(Start(s, f))
    ensures Start(s, f).warned == s.warned
  {
    RingFull(s);
  }

  lemma AppendOrder(n: nat, queue: seq<Waiting>, epochOf: map<Flusher, nat>, from: nat, flushEpoch: nat, workEpoch: nat,
                    f: Flusher)
    requires QueueOrder(n, queue, epochOf, from, flushEpoch, workEpoch) && f !in epochOf
    requires flushEpoch <= workEpoch && (queue == [] ==> from == workEpoch)
    ensures QueueOrder(n, queue + [Waiting(f, Color(n, workEpoch))], epochOf[f := workEpoch], from, flushEpoch,
            workEpoch + 1)
  {
    var q := queue + [Waiting(f, Color(n, workEpoch))];
    var e := epochOf[f := workEpoch];
    forall i | 0 <= i < |q| - 1
      ensures Adjacent(q, e, i)
    {
      if i < |queue| - 1 {
        assert Adjacent(queue, epochOf, i);
      }
    }
  }

  lemma StartMembers(s: State, f: Flusher)
    requires Lists(s) && RingOf(s) && FirstOk(s) && HolderOk(s)
    requires Enabled(s, StartFlush(f)) && NextColor(s, s.workColor) != s.flushColor
    ensures MembersOf(Start(s, f))
    ensures QueueMembers(Start(s, f).queue, Start(s, f).first, Start(s, f).done)
  {
  }

  lemma StartOrder(s: State, f: Flusher)
    requires Control(s) && QueueOf(s) && f !in s.h.epochOf && s.holder.Unlocked?
    requires NextColor(s, s.workColor) != s.flushColor
    ensures QueueOrder(s.colors, Start(s, f).queue, Start(s, f).h.epochOf, FirstQueued(Start(s, f)),
                       s.h.flushEpoch, s.h.workEpoch + 1)
  {
    if s.first.Some? {
      AppendOrder(s.colors, s.queue, s.h.epochOf, FirstQueued(s), s.h.flushEpoch, s.h.workEpoch, f);
    }
  }

  lemma StartLists(s: State, f: Flusher)
    requires Control(s) && Lists(s) && Enabled(s, StartFlush(f)) && NextColor(s, s.workColor) != s.flushColor
    ensures Lists(Start(s, f))
  {
    StartMembers(s, f);
    StartOrder(s, f);
  }

  lemma StartPast(s: State, f: Flusher)
    requires Past(s) && ColorsOf(s) && s.holder.Unlocked? && NextColor(s, s.workColor) != s.flushColor && s.colors > 0
    ensures Past(Start(s, f))
  {
  }

  lemma StartFlushOk(s: State, f: Flusher)
    requires Inv(s) && Enabled(s, StartFlush(f))
    ensures Inv(Apply(s, StartFlush(f)))
  {
    if NextColor(s, s.workColor) == s.flushColor {
      JoinOverflowOk(s, f);
    } else {
      if s.first.None? { StartFirstWork(s, f); } else { StartQueuedWork(s, f); }
      StartControl(s, f);
      StartLists(s, f);
      StartPast(s, f);
    }
  }

  // ----- flush_workqueue_prep_pwqs() -----

  lemma PrepColors(s: State)
    requires Enabled(s, PrepPwq) && RingOf(s) && ColorsOf(s)
    ensures ColorsOf(PrepareOne(s))
    ensures s.holder.advance ==> s.workColor == NextColor(s, s.pwqs[s.holder.cursor].workColor)
  {
    if s.holder.advance {
      ColorSucc(s.colors, s.h.pwqEpoch[s.holder.cursor]);
    }
  }

  lemma PrepCounts(s: State)
    requires Enabled(s, PrepPwq) && Counts(s.colors, s.pwqs, s.h.live)
    ensures Counts(s.colors, PrepareOne(s).pwqs, s.h.live)
  {
    var t := PrepareOne(s);
    forall p | 0 <= p < |t.pwqs|
      ensures PwqCounts(s.colors, t.pwqs[p], s.h.live, p)
    {
      assert PwqCounts(s.colors, s.pwqs[p], s.h.live, p);
    }
  }

  lemma PrepTips(s: State)
    requires Enabled(s, PrepPwq) && TipsOf(s)
    ensures TipsOf(PrepareOne(s))
    ensures s.holder.arm ==> s.pwqs[s.holder.cursor].flushColor == -1
  {
    var t := PrepareOne(s);
    forall p | 0 <= p < |t.pwqs|
      ensures |t.pwqs[p].inFlight| == s.colors && TipOk(t.pwqs[p], s.flushColor, p < Unseen(t) && Flushing(t))
    {
      assert TipOk(s.pwqs[p], s.flushColor, p < Unseen(s) && Flushing(s));
    }
  }

  lemma PrepControl(s: State)
    requires Enabled(s, PrepPwq) && Control(s)
    requires s.holder.arm ==> s.pwqs[s.holder.cursor].flushColor == -1
    ensures Control(PrepareOne(s))
  {
    ArmedChange(s.pwqs, s.holder.cursor, PrepareOne(s).pwqs[s.holder.cursor]);
  }

  lemma PrepWork(s: State)
    requires Enabled(s, PrepPwq) && Work(s) && RingOf(s)
    ensures Work(PrepareOne(s))
    ensures s.holder.arm ==> s.pwqs[s.holder.cursor].flushColor == -1
    ensures s.holder.advance ==> s.workColor == NextColor(s, s.pwqs[s.holder.cursor].workColor)
  {
    PrepColors(s);
    PrepCounts(s);
    PrepTips(s);
  }

  lemma PrepLists(s: State)
    requires Enabled(s, PrepPwq) && Lists(s) && Past(s)
    ensures Lists(PrepareOne(s)) && Past(PrepareOne(s))
  {
    ListsFrame(s, PrepareOne(s));
  }

  lemma PrepPwqOk(s: State)
    requires Inv(s) && Enabled(s, PrepPwq)
    ensures Inv(Apply(s, PrepPwq))
  {
    PrepWork(s);
    PrepControl(s);
    PrepLists(s);
  }

  /** Arming found work: the flush waits, unless that work ended while later pwqs were armed. */
  lemma EndArmedPast(s: State)
    requires Work(s) && Control(s) && Past(s) && Enabled(s, EndPrep) && s.holder.arm && s.holder.wait
    ensures Past(FinishPrep(s))
  {
    if s.toFlush - 1 == 0 {
      NoneArmed(s);
      Drained(s);
      DonePast(s.h, s.done, {s.first.value}, s.h.flushEpoch);
    }
  }

  lemma EndArmedControl(s: State)
    requires Control(s) && Quiet(s) && Enabled(s, EndPrep) && s.holder.arm && s.holder.wait
    ensures Control(FinishPrep(s)) && Quiet(FinishPrep(s))
  {
  }

  lemma EndArmedOk(s: State)
    requires Inv(s) && Enabled(s, EndPrep) && s.holder.arm && s.holder.wait
    ensures Inv(FinishPrep(s))
  {
    EndArmedPast(s);
    EndArmedControl(s);
    WorkFrame(s, FinishPrep(s));
    FirstDoneLists(s, FinishPrep(s));
  }

  /** Nothing to flush for a lone flusher: its colour is over at once. */
  lemma EndFirstWork(s: State)
    requires Work(s) && Control(s) && Enabled(s, EndPrep) && s.holder.after.StartedFirst? && !s.holder.wait
    requires forall id :: id in s.h.live ==> s.h.live[id].epoch > s.h.flushEpoch
    requires forall p :: 0 <= p < |s.pwqs| ==> s.pwqs[p].flushColor == -1
    ensures Work(FinishPrep(s))
  {
  }

  lemma EndFirstLists(s: State)
    requires Control(s) && Lists(s) && Enabled(s, EndPrep) && s.holder.after.StartedFirst? && !s.holder.wait
    ensures Lists(FinishPrep(s))
  {
  }

  lemma EndFirstOk(s: State)
    requires Inv(s) && Enabled(s, EndPrep) && s.holder.after.StartedFirst? && !s.holder.wait
    ensures Inv(FinishPrep(s))
  {
    NoneArmed(s);
    Drained(s);
    EndFirstWork(s);
    EndFirstLists(s);
    DonePast(s.h, s.done, {s.first.value}, s.h.flushEpoch);
  }

  /** Nothing to flush for a cascaded flusher: the cascade goes on. */
  lemma EndCascadeOk(s: State)
    requires Inv(s) && Enabled(s, EndPrep) && s.holder.after.ArmedNext? && !s.holder.wait
    ensures Inv(FinishPrep(s))
  {
    NoneArmed(s);
    Drained(s);
    WorkFrame(s, FinishPrep(s));
    FirstDoneLists(s, FinishPrep(s));
    DonePast(s.h, s.done, {s.first.value}, s.h.flushEpoch);
  }

  lemma EndAdvanceOk(s: State)
    requires Inv(s) && Enabled(s, EndPrep) && !s.holder.arm
    ensures Inv(FinishPrep(s))
  {
    WorkFrame(s, FinishPrep(s));
    EndAdvanceLists(s);
  }

  lemma EndAdvanceLists(s: State)
    requires Control(s) && Lists(s) && Enabled(s, EndPrep) && !s.holder.arm
    ensures Lists(FinishPrep(s))
  {
    ListsFrame(s, FinishPrep(s));
  }

  lemma EndPrepOk(s: State)
    requires Inv(s) && Enabled(s, EndPrep)
    ensures Inv(Apply(s, EndPrep))
  {
    if !s.holder.arm {
      EndAdvanceOk(s);
    } else if s.holder.wait {
      EndArmedOk(s);
    } else if s.holder.after.StartedFirst? {
      EndFirstOk(s);
    } else {
      EndCascadeOk(s);
    }
  }

  // ----- the wake-up-and-cascade phase -----

  lemma WakeListed(s: State, f: Flusher)
    requires RingOf(s) && FirstOk(s) && Lists(s) && s.first == Some(f)
    ensures f !in Flushers(s.queue) && f !in s.overflow && f in s.colorOf && s.colorOf[f] == s.flushColor
  {
  }

  lemma WakeFlusherOk(s: State, f: Flusher)
    requires Inv(s) && Enabled(s, WakeFlusher(f))
    ensures Inv(Apply(s, WakeFlusher(f)))
  {
    WorkFrame(s, Apply(s, WakeFlusher(f)));
    WakeListed(s, f);
    FirstDoneLists(s, Apply(s, WakeFlusher(f)));
  }

  lemma {:induction false} LeadIs(queue: seq<Waiting>, color: nat)
    ensures var k := LeadLength(queue, color);
            && (forall i :: 0 <= i < k ==> queue[i].color == color)
            && (k < |queue| ==> queue[k].color != color)
  {
    if queue != [] && queue[0].color == color {
      LeadIs(queue[1..], color);
    }
  }

  /** The completed prefix of the queue is exactly the flushers of the finished epoch. */
  lemma LeadEpochs(s: State)
    requires RingOf(s) && QueueOf(s)
    ensures var k := LeadLength(s.queue, s.flushColor);
            && (forall i :: 0 <= i < k ==> s.h.epochOf[s.queue[i].f] == s.h.flushEpoch)
            && (k < |s.queue| ==> s.h.epochOf[s.queue[k].f] > s.h.flushEpoch)
  {
    LeadIs(s.queue, s.flushColor);
    forall i | 0 <= i < |s.queue|
      ensures s.queue[i].color == s.flushColor <==> s.h.epochOf[s.queue[i].f] == s.h.flushEpoch
    {
      SameColor(s.colors, s.h.flushEpoch, s.h.epochOf[s.queue[i].f]);
    }
  }

  lemma SuffixOrder(n: nat, queue: seq<Waiting>, epochOf: map<Flusher, nat>, flushEpoch: nat, workEpoch: nat, k: nat)
    requires QueueOrder(n, queue, epochOf, flushEpoch + 1, flushEpoch, workEpoch) && flushEpoch < workEpoch
    requires k <= |queue|
    requires forall i :: 0 <= i < k ==> epochOf[queue[i].f] == flushEpoch
    requires k < |queue| ==> epochOf[queue[k].f] > flushEpoch
    ensures QueueOrder(n, queue[k..], epochOf, flushEpoch + 1, flushEpoch + 1, workEpoch)
    ensures queue[k..] == [] ==> workEpoch == flushEpoch + 1
  {
    var q := queue[k..];
    forall i | 0 <= i < |q|
      ensures epochOf[q[i].f] > flushEpoch
    {
      OrderedFrom(n, queue, epochOf, flushEpoch + 1, flushEpoch, workEpoch, k, k + i);
    }
    forall i | 0 <= i < |q| - 1
      ensures Adjacent(q, epochOf, i)
    {
      assert Adjacent(queue, epochOf, k + i);
    }
    if 0 < k < |queue| {
      assert Adjacent(queue, epochOf, k - 1);
    }
  }

  lemma {:induction false} OrderedFrom(n: nat, queue: seq<Waiting>, epochOf: map<Flusher, nat>, from: nat,
                                       flushEpoch: nat,
                                       workEpoch: nat, i: nat, j: nat)
    requires QueueOrder(n, queue, epochOf, from, flushEpoch, workEpoch) && i <= j < |queue|
    ensures epochOf[queue[i].f] <= epochOf[queue[j].f]
    decreases j
  {
    if i < j {
      OrderedFrom(n, queue, epochOf, from, flushEpoch, workEpoch, i, j - 1);
      assert Adjacent(queue, epochOf, j - 1);
    }
  }

  /** Splicing the overflow onto the queue gives it the epoch just opened. */
  lemma SpliceOrder(n: nat, queue: seq<Waiting>, epochOf: map<Flusher, nat>, flushEpoch: nat, workEpoch: nat,
                    overflow: seq<Flusher>)
    requires QueueOrder(n, queue, epochOf, flushEpoch, flushEpoch, workEpoch) && flushEpoch <= workEpoch
    requires overflow != []
    requires queue == [] ==> flushEpoch == workEpoch
    requires forall i :: 0 <= i < |overflow| ==> overflow[i] !in epochOf
    ensures QueueOrder(n, queue + Recolor(overflow, Color(n, workEpoch)), AssignAll(epochOf, overflow, workEpoch),
                       flushEpoch, flushEpoch, workEpoch + 1)
  {
    var q := queue + Recolor(overflow, Color(n, workEpoch));
    var e := AssignAll(epochOf, overflow, workEpoch);
    forall i | 0 <= i < |q|
      ensures q[i].f in e && q[i].color == Color(n, e[q[i].f]) && flushEpoch <= e[q[i].f] < workEpoch + 1
      ensures e[q[i].f] == if i < |queue| then epochOf[queue[i].f] else workEpoch
    {
      if i < |queue| {
        assert queue[i].f in epochOf;
        assert queue[i].f !in overflow;
      } else {
        assert q[i].f == overflow[i - |queue|];
      }
    }
    forall i | 0 <= i < |q| - 1
      ensures Adjacent(q, e, i)
    {
      if i < |queue| - 1 {
        assert Adjacent(queue, epochOf, i);
      }
    }
  }

  lemma CompleteWork(s: State)
    requires Work(s) && RingOf(s) && s.first.None? && Enabled(s, CascadeComplete)
    requires forall id :: id in s.h.live ==> s.h.live[id].epoch > s.h.flushEpoch
    requires forall p :: 0 <= p < |s.pwqs| ==> s.pwqs[p].flushColor == -1
    ensures Work(CompleteColor(s))
  {
    var t := CompleteColor(s);
    assert t.pwqs == s.pwqs && !Flushing(t);
  }

  lemma RestOrder(s: State)
    requires RingOf(s) && QueueOf(s) && s.holder.CascadeTop?
    ensures var rest := s.queue[LeadLength(s.queue, s.flushColor)..];
            && QueueOrder(s.colors, rest, s.h.epochOf, s.h.flushEpoch + 1, s.h.flushEpoch + 1, s.h.workEpoch)
            && (rest == [] ==> s.h.workEpoch == s.h.flushEpoch + 1)
  {
    LeadEpochs(s);
    SuffixOrder(s.colors, s.queue, s.h.epochOf, s.h.flushEpoch, s.h.workEpoch, LeadLength(s.queue, s.flushColor));
  }

  lemma CompleteRing(s: State)
    requires RingOf(s) && HolderOk(s) && OverflowOk(s) && s.holder.CascadeTop?
    ensures RingOf(CompleteColor(s)) && CompleteColor(s).warned == s.warned
  {
    RingFull(s);
    ColorSucc(s.colors, s.h.flushEpoch);
  }

  lemma CompleteCursor(s: State)
    requires HolderOk(s) && OverflowOk(s) && s.holder.CascadeTop? && s.colors > 0
    requires s.h.flushEpoch < s.h.workEpoch
    requires s.queue[LeadLength(s.queue, s.flushColor)..] == [] ==> s.h.workEpoch == s.h.flushEpoch + 1
    ensures HolderOk(CompleteColor(s)) && OverflowOk(CompleteColor(s)) && FirstOk(CompleteColor(s))
  {
  }

  lemma CompleteControl(s: State)
    requires Control(s) && QueueOf(s) && Enabled(s, CascadeComplete)
    ensures Control(CompleteColor(s))
    ensures CompleteColor(s).warned == s.warned
  {
    RestOrder(s);
    CompleteRing(s);
    CompleteCursor(s);
  }

  lemma CompleteOrder(s: State)
    requires RingOf(s) && QueueOf(s) && s.holder.CascadeTop? && s.overflow != []
    requires forall i :: 0 <= i < |s.overflow| ==> s.overflow[i] !in s.h.epochOf
    ensures QueueOrder(s.colors, s.queue[LeadLength(s.queue, s.flushColor)..] + Recolor(s.overflow, s.workColor),
                       AssignAll(s.h.epochOf, s.overflow, s.h.workEpoch),
                       s.h.flushEpoch + 1, s.h.flushEpoch + 1, s.h.workEpoch + 1)
  {
    RestOrder(s);
    var rest := s.queue[LeadLength(s.queue, s.flushColor)..];
    SpliceOrder(s.colors, rest, s.h.epochOf, s.h.flushEpoch + 1, s.h.workEpoch, s.overflow);
  }

  lemma CompleteQueueMembers(queue: seq<Waiting>, k: nat, done: set<Flusher>, overflow: seq<Flusher>, color: nat,
                             colorOf: map<Flusher, nat>)
    requires k <= |queue| && QueueMembers(queue, None, done) && done <= colorOf.Keys
    requires forall i :: 0 <= i < |queue| ==> queue[i].f in colorOf
    requires forall i :: 0 <= i < |overflow| ==> overflow[i] !in colorOf
    requires forall i, j :: 0 <= i < j < |overflow| ==> overflow[i] != overflow[j]
    ensures QueueMembers(queue[k..] + Recolor(overflow, color), None, done + Flushers(queue[..k]))
  {
    var q := queue[k..] + Recolor(overflow, color);
    var d := done + Flushers(queue[..k]);
    forall i | 0 <= i < |q|
      ensures q[i].f !in d
    {
      if i >= |queue| - k { assert q[i].f == overflow[i - (|queue| - k)]; }
    }
    forall i, j | 0 <= i < j < |q|
      ensures q[i].f != q[j].f
    {
      if i >= |queue| - k {
        assert q[i].f == overflow[i - (|queue| - k)] && q[j].f == overflow[j - (|queue| - k)];
      } else if j >= |queue| - k {
        assert q[j].f == overflow[j - (|queue| - k)] && q[i].f in colorOf;
      }
    }
  }

  lemma CompletedKnown(s: State)
    requires QueueOf(s) && MembersOf(s)
    ensures s.done + Flushers(s.queue[..LeadLength(s.queue, s.flushColor)]) <= s.colorOf.Keys
  {
  }

  lemma SpliceMembers(s: State, done: set<Flusher>)
    requires MembersOf(s) && RingOf(s) && done <= s.colorOf.Keys
    ensures Members([], AssignAll(s.colorOf, s.overflow, s.workColor),
                    AssignAll(s.h.epochOf, s.overflow, s.h.workEpoch),
                    s.h.before, done, s.colors)
  {
  }

  lemma CompletePlainLists(s: State, t: State)
    requires RingOf(s) && s.first.None? && Lists(s) && s.holder.CascadeTop? && s.overflow == t.overflow == []
    requires var k := LeadLength(s.queue, s.flushColor);
             t.queue == s.queue[k..] && t.done == s.done + Flushers(s.queue[..k])
    requires t.colors == s.colors && t.h.epochOf == s.h.epochOf && t.colorOf == s.colorOf && t.h.before == s.h.before
    requires t.h.flushEpoch == s.h.flushEpoch + 1 && t.h.workEpoch == s.h.workEpoch && !Flushing(t)
    ensures Lists(t)
  {
    var k := LeadLength(s.queue, s.flushColor);
    CompletedKnown(s);
    RestOrder(s);
    CompleteQueueMembers(s.queue, k, s.done, [], s.workColor, s.colorOf);
    assert s.queue[k..] + Recolor([], s.workColor) == s.queue[k..];
  }

  lemma CompleteSpliceLists(s: State, t: State)
    requires RingOf(s) && s.first.None? && Lists(s) && s.holder.CascadeTop? && s.overflow != [] && t.overflow == []
    requires var k := LeadLength(s.queue, s.flushColor);
             t.queue == s.queue[k..] + Recolor(s.overflow, s.workColor) && t.done == s.done + Flushers(s.queue[..k])
    requires t.colors == s.colors && t.h.before == s.h.before
    requires t.h.epochOf == AssignAll(s.h.epochOf, s.overflow, s.h.workEpoch)
    requires t.colorOf == AssignAll(s.colorOf, s.overflow, s.workColor)
    requires t.h.flushEpoch == s.h.flushEpoch + 1 && t.h.workEpoch == s.h.workEpoch + 1 && !Flushing(t)
    ensures Lists(t)
  {
    var k := LeadLength(s.queue, s.flushColor);
    CompletedKnown(s);
    CompleteOrder(s);
    SpliceMembers(s, s.done + Flushers(s.queue[..k]));
    CompleteQueueMembers(s.queue, k, s.done, s.overflow, s.workColor, s.colorOf);
  }

  lemma SpliceSnapshots(h: History, overflow: seq<Flusher>, h2: History)
    requires Snapshots(h) && h2.live == h.live && h2.retired == h.retired && h2.before == h.before
    requires h2.epochOf == AssignAll(h.epochOf, overflow, h.workEpoch)
    requires forall id :: id in h.live ==> h.live[id].epoch <= h.workEpoch
    ensures Snapshots(h2)
  {
    forall f, id | f in h2.epochOf && f in h2.before && id in h2.before[f] && id in h2.live
      ensures h2.live[id].epoch <= h2.epochOf[f]
    {
      if f !in overflow { assert f in h.epochOf; }
    }
  }

  lemma CompletePast(s: State)
    requires Past(s) && RingOf(s) && QueueOf(s) && Enabled(s, CascadeComplete)
    requires forall id :: id in s.h.live ==> s.h.flushEpoch < s.h.live[id].epoch <= s.h.workEpoch
    ensures Past(CompleteColor(s))
  {
    var t := CompleteColor(s);
    LeadEpochs(s);
    DonePast(s.h, s.done, Flushers(s.queue[..LeadLength(s.queue, s.flushColor)]), s.h.flushEpoch);
    if s.overflow != [] { SpliceSnapshots(s.h, s.overflow, t.h); }
  }

  lemma LiveRange(s: State)
    requires ColorsOf(s)
    ensures forall id :: id in s.h.live ==> s.h.flushEpoch <= s.h.live[id].epoch <= s.h.workEpoch
  {
  }

  lemma CascadeCompleteOk(s: State)
    requires Inv(s) && Enabled(s, CascadeComplete)
    ensures Inv(Apply(s, CascadeComplete))
  {
    NoneArmed(s);
    Drained(s);
    CompleteWork(s);
    CompleteControl(s);
    if s.overflow == [] { CompletePlainLists(s, CompleteColor(s)); } else { CompleteSpliceLists(s, CompleteColor(s)); }
    LiveRange(s);
    CompletePast(s);
  }

  lemma ArmNextLists(s: State)
    requires Lists(s) && Control(s) && s.holder.CascadeNext? && s.holder.next.Some?
    ensures Lists(ArmNext(s))
    ensures s.h.epochOf[s.holder.next.value] == s.h.flushEpoch < s.h.workEpoch
  {
    var t := ArmNext(s);
    assert t.queue == s.queue[1..];
    assert s.h.epochOf[s.queue[0].f] == s.h.flushEpoch;
    if |s.queue| > 1 {
      assert Adjacent(s.queue, s.h.epochOf, 0);
    }
    forall i | 0 <= i < |t.queue| - 1
      ensures Adjacent(t.queue, s.h.epochOf, i)
    {
      assert Adjacent(s.queue, s.h.epochOf, i + 1);
    }
  }

  lemma ArmNextControl(s: State)
    requires Control(s) && Lists(s) && s.holder.CascadeNext? && s.holder.next.Some?
    requires s.h.epochOf[s.holder.next.value] == s.h.flushEpoch < s.h.workEpoch
    ensures Control(ArmNext(s))
    ensures ArmNext(s).warned == s.warned
  {
    RingFull(s);
  }

  lemma ArmNextWork(s: State)
    requires Work(s) && Control(s) && s.holder.CascadeNext? && s.holder.next.Some?
    ensures Work(ArmNext(s))
  {
    NoneArmed(s);
    var t := ArmNext(s);
    forall p | 0 <= p < |t.pwqs|
      ensures |t.pwqs[p].inFlight| == t.colors && TipOk(t.pwqs[p], t.flushColor, false)
    {
      assert TipOk(s.pwqs[p], s.flushColor, p < Unseen(s) && Flushing(s));
    }
  }

  lemma CascadeEndOk(s: State)
    requires Inv(s) && Enabled(s, CascadeAdvance) && (s.queue == [] || s.holder.next.None?)
    ensures Inv(ArmNext(s))
  {
    RingFull(s);
    WorkFrame(s, ArmNext(s));
    ListsFrame(s, ArmNext(s));
  }

  lemma CascadeAdvanceOk(s: State)
    requires Inv(s) && Enabled(s, CascadeAdvance)
    ensures Inv(Apply(s, CascadeAdvance))
  {
    if s.queue == [] || s.holder.next.None? {
      CascadeEndOk(s);
    } else {
      ArmNextWork(s);
      ArmNextLists(s);
      ArmNextControl(s);
    }
  }

  // ----- every run -----

  lemma StepOk(s: State, step: Step)
    requires Inv(s) && Enabled(s, step)
    ensures Inv(Apply(s, step))
  {
    match step
    case QueueWork(id, p) => QueueWorkOk(s, id, p);
    case InsertBarrier(id, target) => InsertBarrierOk(s, id, target);
    case Retire(id) => RetireOk(s, id);
    case CompleteFirst => CompleteFirstOk(s);
    case CallFlush(f) => CallFlushOk(s, f);
    case StartFlush(f) => StartFlushOk(s, f);
    case PrepPwq => PrepPwqOk(s);
    case EndPrep => EndPrepOk(s);
    case WakeFlusher(f) => WakeFlusherOk(s, f);
    case CascadeComplete => CascadeCompleteOk(s);
    case CascadeAdvance => CascadeAdvanceOk(s);
  }

  lemma {:induction false} RunInv(trace: seq<State>, steps: seq<Step>, i: nat)
    requires IsRun(trace, steps) && i < |trace|
    ensures Inv(trace[i])
  {
    if i == 0 {
      InitOk(trace[0]);
    } else {
      RunInv(trace, steps, i - 1);
      assert IsStep(trace, steps, i - 1);
      StepOk(trace[i - 1], steps[i - 1]);
    }
  }

  /**
   No WARN_ON_ONCE of the flush code fires in any run.  With two colours a run may come to a point
   where the cascade follows a stale cursor; it ends there, before what the cursor shows is tested.  With more
   colours there is no such point.
   */
  lemma NoWarning(trace: seq<State>, steps: seq<Step>)
    requires IsRun(trace, steps)
    ensures forall i :: 0 <= i < |trace| ==> !trace[i].warned && (trace[i].colors > 2 ==> !trace[i].strayed)
  {
    forall i | 0 <= i < |trace|
      ensures !trace[i].warned && (trace[i].colors > 2 ==> !trace[i].strayed)
    {
      RunInv(trace, steps, i);
    }
  }

  /** Some step before position j retired the item. */
  predicate RetiredBy(steps: seq<Step>, j: nat, id: WorkId) {
    exists m :: 0 <= m < j && m < |steps| && steps[m] == Retire(id)
  }

  /** Some step before position i put the item on the workqueue. */
  predicate QueuedBy(steps: seq<Step>, i: nat, id: WorkId) {
    exists k :: 0 <= k < i && k < |steps| && QueuesItem(steps[k], id)
  }

  predicate QueuesItem(step: Step, id: WorkId) {
    (step.QueueWork? || step.InsertBarrier?) && step.id == id
  }

  lemma {:induction false} HistoryOfItem(trace: seq<State>, steps: seq<Step>, j: nat, id: WorkId)
    requires IsRun(trace, steps) && j < |trace|
    ensures id in trace[j].h.retired ==> RetiredBy(steps, j, id)
    ensures QueuedBy(steps, j, id) ==> id in trace[j].h.live || id in trace[j].h.retired
  {
    if j > 0 {
      HistoryOfItem(trace, steps, j - 1, id);
      assert IsStep(trace, steps, j - 1);
      ItemStep(trace[j - 1], steps[j - 1], id);
      if id in trace[j].h.retired && id in trace[j - 1].h.retired {
        var m :| 0 <= m < j - 1 && m < |steps| && steps[m] == Retire(id);
      }
      if QueuedBy(steps, j, id) && !QueuedBy(steps, j - 1, id) {
        var k :| 0 <= k < j && k < |steps| && QueuesItem(steps[k], id);
        assert k == j - 1;
      }
    }
  }

  predicate SameItems(h: History, g: History) {
    g.live == h.live && g.retired == h.retired && g.before == h.before
  }

  lemma StartSilent(s: State, f: Flusher)
    requires s.colors > 0
    ensures SameItems(s.h, Start(s, f).h)
  {
  }

  lemma FinishSilent(s: State)
    requires s.holder.Prep?
    ensures SameItems(s.h, FinishPrep(s).h)
  {
  }

  lemma CompleteSilent(s: State)
    requires s.colors > 0
    ensures SameItems(s.h, CompleteColor(s).h)
  {
  }

  lemma ArmSilent(s: State)
    requires s.holder.CascadeNext?
    ensures SameItems(s.h, ArmNext(s).h)
  {
  }

  lemma SilentStep(s: State, step: Step)
    requires Enabled(s, step) && !step.QueueWork? && !step.InsertBarrier? && !step.Retire? && !step.CallFlush?
    ensures SameItems(s.h, Apply(s, step).h)
  {
    match step
    case CompleteFirst =>
    case StartFlush(f) => StartSilent(s, f);
    case PrepPwq =>
    case EndPrep => FinishSilent(s);
    case WakeFlusher(_) =>
    case CascadeComplete => CompleteSilent(s);
    case CascadeAdvance => ArmSilent(s);
  }

  lemma ItemStep(s: State, step: Step, id: WorkId)
    requires Enabled(s, step)
    ensures id in Apply(s, step).h.retired <==> id in s.h.retired || step == Retire(id)
    ensures id in s.h.live || QueuesItem(step, id) ==> id in Apply(s, step).h.live || step == Retire(id)
  {
    if !step.QueueWork? && !step.InsertBarrier? && !step.Retire? && !step.CallFlush? { SilentStep(s, step); }
  }

  lemma BeforeSilent(s: State, step: Step)
    requires Enabled(s, step) && !step.CallFlush?
    ensures Apply(s, step).h.before == s.h.before
  {
    match step
    case QueueWork(_, _) =>
    case InsertBarrier(_, _) =>
    case Retire(_) =>
    case _ => SilentStep(s, step);
  }

  lemma BeforeStep(s: State, step: Step, f: Flusher)
    requires Enabled(s, step) && (f in s.h.before || step == CallFlush(f))
    ensures f in Apply(s, step).h.before
    ensures Apply(s, step).h.before[f] == if step == CallFlush(f) then s.h.live.Keys else s.h.before[f]
  {
    if !step.CallFlush? { BeforeSilent(s, step); }
  }

  lemma {:induction false} BeforeStays(trace: seq<State>, steps: seq<Step>, i: nat, j: nat, f: Flusher)
    requires IsRun(trace, steps) && i < j < |trace| && steps[i] == CallFlush(f)
    ensures f in trace[j].h.before && trace[j].h.before[f] == trace[i].h.live.Keys
    decreases j
  {
    if j > i + 1 { BeforeStays(trace, steps, i, j - 1, f); }
    assert IsStep(trace, steps, j - 1);
    BeforeStep(trace[j - 1], steps[j - 1], f);
  }

  /**
   Flush soundness: whatever the interleaving, once the completion of a flusher has
   fired, every item that was put on the workqueue before its flush was called has
   finished (or was cancelled).
   */
  lemma FlushIsSound(trace: seq<State>, steps: seq<Step>, f: Flusher, i: nat, j: nat, id: WorkId)
    requires IsRun(trace, steps) && i < j < |trace|
    requires steps[i] == CallFlush(f) && QueuedBy(steps, i, id)
    requires f in trace[j].done
    ensures RetiredBy(steps, j, id)
  {
    HistoryOfItem(trace, steps, i, id);
    HistoryOfItem(trace, steps, j, id);
    if id in trace[i].h.retired {
      var m :| 0 <= m < i && m < |steps| && steps[m] == Retire(id);
    } else {
      BeforeStays(trace, steps, i, j, f);
      RunInv(trace, steps, j);
      assert id in trace[j].h.before[f];
    }
  }

  // ----- the ring, in the kernel's own fields -----

  /** Steps around the ring from colour `a` to colour `b`. */
  function Distance(n: nat, a: nat, b: nat): int {
    if b >= a then b - a else b - a + n
  }

  lemma {:induction false} DistanceIsEpochs(n: nat, a: nat, e: nat)
    requires n > 0 && a <= e < a + n
    ensures Distance(n, Color(n, a), Color(n, e)) == e - a
    decreases e - a
  {
    if e > a {
      DistanceIsEpochs(n, a, e - 1);
      ColorSucc(n, e - 1);
    }
  }

  predicate LiveColorsAreSegment(s: State) {
    forall p, c :: 0 <= p < |s.pwqs| && 0 <= c < |s.pwqs[p].inFlight| && s.pwqs[p].inFlight[c] > 0 ==>
      Distance(s.colors, s.flushColor, c) <= Distance(s.colors, s.flushColor, s.workColor)
  }

  predicate QueueInRingOrder(s: State) {
    && (forall i, j :: 0 <= i <= j < |s.queue| ==>
          Distance(s.colors, s.flushColor, s.queue[i].color) <= Distance(s.colors, s.flushColor, s.queue[j].color))
    && (forall i :: 0 <= i < |s.queue| ==>
          Distance(s.colors, s.flushColor, s.queue[i].color) < Distance(s.colors, s.flushColor, s.workColor))
  }

  lemma SegmentOf(s: State)
    requires Work(s) && RingOf(s)
    ensures LiveColorsAreSegment(s)
  {
    forall p, c | 0 <= p < |s.pwqs| && 0 <= c < |s.pwqs[p].inFlight| && s.pwqs[p].inFlight[c] > 0
      ensures Distance(s.colors, s.flushColor, c) <= Distance(s.colors, s.flushColor, s.workColor)
    {
      assert PwqCounts(s.colors, s.pwqs[p], s.h.live, p);
      assert |At(s.h.live, p, c)| > 0;
      var id :| id in At(s.h.live, p, c);
      DistanceIsEpochs(s.colors, s.h.flushEpoch, s.h.live[id].epoch);
      DistanceIsEpochs(s.colors, s.h.flushEpoch, s.h.workEpoch);
    }
  }

  lemma RingOrderOf(s: State)
    requires QueueOf(s) && RingOf(s)
    ensures QueueInRingOrder(s)
  {
    DistanceIsEpochs(s.colors, s.h.flushEpoch, s.h.workEpoch);
    forall i | 0 <= i < |s.queue|
      ensures Distance(s.colors, s.flushColor, s.queue[i].color) == s.h.epochOf[s.queue[i].f] - s.h.flushEpoch
    {
      DistanceIsEpochs(s.colors, s.h.flushEpoch, s.h.epochOf[s.queue[i].f]);
    }
    forall i, j | 0 <= i <= j < |s.queue|
      ensures s.h.epochOf[s.queue[i].f] <= s.h.epochOf[s.queue[j].f]
    {
      OrderedFrom(s.colors, s.queue, s.h.epochOf, FirstQueued(s), s.h.flushEpoch, s.h.workEpoch, i, j);
    }
  }

  /** The overflow waits for a full ring; a workqueue at rest has one colour; only a first flusher is woken. */
  predicate RingEnds(s: State) {
    && s.colors >= 2
    && (s.overflow != [] ==> (s.workColor + 1) % s.colors == s.flushColor)
    && (s.holder.Unlocked? && s.first.None? ==> s.flushColor == s.workColor)
    && (s.wake || s.toFlush > 0 ==> s.first.Some?)
  }

  lemma RingEndsOf(s: State)
    requires Control(s)
    ensures RingEnds(s)
  {
    RingFull(s);
    NextColorIsModular(s, s.workColor);
  }

  /** The colour ring, at every moment of every run. */
  lemma ColorRing(trace: seq<State>, steps: seq<Step>, i: nat)
    requires IsRun(trace, steps) && i < |trace|
    ensures LiveColorsAreSegment(trace[i])
    ensures QueueInRingOrder(trace[i])
    ensures RingEnds(trace[i])
  {
    var s := trace[i];
    RunInv(trace, steps, i);
    RingEndsOf(s);
    SegmentOf(s);
    RingOrderOf(s);
  }

  /** WellSized is no restriction: it holds in every state of every run. */
  lemma RunsAreSized(trace: seq<State>, steps: seq<Step>, i: nat)
    requires IsRun(trace, steps) && i < |trace|
    ensures WellSized(trace[i])
  {
    RunInv(trace, steps, i);
    InvSized(trace[i]);
  }

  lemma KeepsColors(s: State, step: Step)
    requires Enabled(s, step)
    ensures Apply(s, step).colors == s.colors
  {
    match step
    case StartFlush(_) =>
    case EndPrep =>
    case CascadeComplete =>
    case CascadeAdvance =>
    case Retire(_) =>
    case PrepPwq =>
    case _ =>
  }

  lemma {:induction false} ColorsFixed(trace: seq<State>, steps: seq<Step>, i: nat)
    requires IsRun(trace, steps) && i < |trace|
    ensures trace[i].colors == trace[0].colors
  {
    if i == 0 {
    } else {
      ColorsFixed(trace, steps, i - 1);
      assert IsStep(trace, steps, i - 1);
      KeepsColors(trace[i - 1], steps[i - 1]);
    }
  }
}
