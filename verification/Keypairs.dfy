/**
 The three keypair slots of a peer.  A keypair enters with one reference, which its slot owns;
 whatever an operation pushes out of the slots is put once, and only once.  A keypair may be
 used for sending, that is become current, only if this side was the initiator of its handshake
 or the other side has confirmed it by a data packet.
 */
module Keypairs {
  import opened Maybe

  type Id = nat

  /**
   struct noise_keypairs.  refs is what the slots' references leave in each refcount; confirmed is
   history: the keypairs for which data was received while they were next.
   */
  datatype State = State(current: Option<Id>, previous: Option<Id>, next: Option<Id>,
                         refs: map<Id, int>, initiator: map<Id, bool>, confirmed: set<Id>)

  datatype Step = Add(k: Id, initiator: bool) | Received(k: Id) | Clear

  /** wg_noise_keypair_put(); putting nothing does nothing. */
  function Put(refs: map<Id, int>, k: Option<Id>): map<Id, int> {
    if k.None? || k.value !in refs then refs else refs[k.value := refs[k.value] - 1]
  }

  /** add_new_keypair() */
  function AddStep(s: State, k: Id, initiator: bool): State {
    var s' := s.(refs := s.refs[k := 1], initiator := s.initiator[k := initiator]);
    if initiator then
      if s.next.Some? then
        s'.(next := None, previous := s.next, current := Some(k), refs := Put(Put(s'.refs, s.current), s.previous))
      else s'.(previous := s.current, current := Some(k), refs := Put(s'.refs, s.previous))
    else s'.(next := Some(k), previous := None, refs := Put(Put(s'.refs, s.next), s.previous))
  }

  /** wg_noise_received_with_keypair() */
  function ReceivedStep(s: State, k: Id): State {
    if s.next != Some(k) then s
    else s.(previous := s.current, current := Some(k), next := None, refs := Put(s.refs, s.previous),
      confirmed := s.confirmed + {k})
  }

  /** wg_noise_keypairs_clear() */
  function ClearStep(s: State): State {
    s.(next := None, previous := None, current := None, refs := Put(Put(Put(s.refs, s.next), s.previous), s.current))
  }

  /** A new keypair is one that was never there before. */
  predicate Enabled(s: State, step: Step) { step.Add? ==> step.k !in s.refs }

  function Apply(s: State, step: Step): State {
    match step
    case Add(k, initiator) => AddStep(s, k, initiator)
    case Received(k) => ReceivedStep(s, k)
    case Clear => ClearStep(s)
  }

  predicate Init(s: State) { s == State(None, None, None, map[], map[], {}) }

  predicate IsStep(trace: seq<State>, steps: seq<Step>, i: nat)
    requires i < |steps| && |trace| == |steps| + 1
  {
    Enabled(trace[i], steps[i]) && trace[i + 1] == Apply(trace[i], steps[i])
  }

  predicate IsRun(trace: seq<State>, steps: seq<Step>) {
    && |trace| == |steps| + 1 && Init(trace[0])
    && (forall i :: 0 <= i < |steps| ==> IsStep(trace, steps, i))
  }

  predicate InSlot(s: State, k: Id) { s.current == Some(k) || s.previous == Some(k) || s.next == Some(k) }

  predicate Distinct(s: State) {
    && (s.current.Some? ==> s.current != s.previous && s.current != s.next)
    && (s.previous.Some? ==> s.previous != s.next)
  }

  /** A slot owns one reference, and nothing else is left of a keypair. */
  ghost predicate Owned(s: State) {
    && (forall k :: k in s.refs ==> s.refs[k] == if InSlot(s, k) then 1 else 0)
    && (forall k: Id :: InSlot(s, k) ==> k in s.refs)
  }

  predicate Usable(s: State, k: Id) { (k in s.initiator && s.initiator[k]) || k in s.confirmed }

  ghost predicate Inv(s: State) {
    Distinct(s) && Owned(s) && s.initiator.Keys == s.refs.Keys && (s.current.Some? ==> Usable(s, s.current.value))
  }

  lemma AddOk(s: State, k: Id, initiator: bool)
    requires Inv(s) && k !in s.refs
    ensures Inv(AddStep(s, k, initiator))
  {
    assert !InSlot(s, k);
    assert s.current.Some? ==> InSlot(s, s.current.value);
    assert s.previous.Some? ==> InSlot(s, s.previous.value);
    assert s.next.Some? ==> InSlot(s, s.next.value);
  }

  lemma ReceivedOk(s: State, k: Id)
    requires Inv(s)
    ensures Inv(ReceivedStep(s, k))
  {
    assert s.current.Some? ==> InSlot(s, s.current.value);
    assert s.previous.Some? ==> InSlot(s, s.previous.value);
    assert s.next.Some? ==> InSlot(s, s.next.value);
  }

  lemma ClearOk(s: State)
    requires Inv(s)
    ensures Inv(ClearStep(s))
  {
    assert s.current.Some? ==> InSlot(s, s.current.value);
    assert s.previous.Some? ==> InSlot(s, s.previous.value);
    assert s.next.Some? ==> InSlot(s, s.next.value);
  }

  lemma {:induction false} RunInv(trace: seq<State>, steps: seq<Step>, i: nat)
    requires IsRun(trace, steps) && i < |trace|
    ensures Inv(trace[i])
  {
    if i > 0 {
      RunInv(trace, steps, i - 1);
      assert IsStep(trace, steps, i - 1);
      match steps[i - 1]
      case Add(k, initiator) => AddOk(trace[i - 1], k, initiator);
      case Received(k) => ReceivedOk(trace[i - 1], k);
      case Clear => ClearOk(trace[i - 1]);
    }
  }

  /** In every run the filled slots hold different keypairs. */
  lemma SlotsDiffer(trace: seq<State>, steps: seq<Step>, i: nat)
    requires IsRun(trace, steps) && i < |trace|
    ensures Distinct(trace[i])
  {
    RunInv(trace, steps, i);
  }

  /** A keypair that was ever added has its one reference exactly as long as it is in a slot. */
  lemma PutExactlyOnce(trace: seq<State>, steps: seq<Step>, i: nat, k: Id)
    requires IsRun(trace, steps) && i < |trace| && k in trace[i].refs
    ensures trace[i].refs[k] == if InSlot(trace[i], k) then 1 else 0
  {
    RunInv(trace, steps, i);
  }

  /** Nothing is current that is neither an initiator's keypair nor confirmed by received data. */
  lemma CurrentIsUsable(trace: seq<State>, steps: seq<Step>, i: nat)
    requires IsRun(trace, steps) && i < |trace| && trace[i].current.Some?
    ensures Usable(trace[i], trace[i].current.value)
  {
    RunInv(trace, steps, i);
  }

  /** What confirmed means: the run holds a step that received data for k while k was next. */
  lemma {:induction false} ConfirmedByData(trace: seq<State>, steps: seq<Step>, i: nat, k: Id)
    requires IsRun(trace, steps) && i < |trace| && k in trace[i].confirmed
    ensures exists j :: 0 <= j < i && steps[j] == Received(k) && trace[j].next == Some(k)
  {
    if i > 0 {
      assert IsStep(trace, steps, i - 1);
      if k in trace[i - 1].confirmed {
        ConfirmedByData(trace, steps, i - 1, k);
      } else {
        assert steps[i - 1] == Received(k) && trace[i - 1].next == Some(k);
      }
    }
  }

  /** A keypair that has left the slots never comes back. */
  lemma {:induction false} GoneForGood(trace: seq<State>, steps: seq<Step>, i: nat, j: nat, k: Id)
    requires IsRun(trace, steps) && i <= j < |trace| && k in trace[i].refs && !InSlot(trace[i], k)
    ensures k in trace[j].refs && !InSlot(trace[j], k)
    decreases j - i
  {
    if i < j {
      GoneForGood(trace, steps, i, j - 1, k);
      assert IsStep(trace, steps, j - 1);
      RunInv(trace, steps, j - 1);
    }
  }

  // ---------------------------------------------------------------- who stays

  /** The step makes keypair k the one to send with: the initiator at once, the responder when data confirms it. */
  predicate Activates(s: State, step: Step, k: Id) {
    step == Add(k, true) || (step == Received(k) && s.next == Some(k))
  }

  /** What the run says a side sends with: the keypair activated last, unless all were cleared since. */
  function LastActivated(trace: seq<State>, steps: seq<Step>, i: nat): Option<Id>
    requires |trace| == |steps| + 1 && i <= |steps|
  {
    if i == 0 || steps[i - 1].Clear? then None
    else if Activates(trace[i - 1], steps[i - 1], steps[i - 1].k) then Some(steps[i - 1].k)
    else LastActivated(trace, steps, i - 1)
  }

  /** What a responder waits to see confirmed: the keypair added last, unless superseded, confirmed or cleared. */
  function LastOffered(trace: seq<State>, steps: seq<Step>, i: nat): Option<Id>
    requires |trace| == |steps| + 1 && i <= |steps|
  {
    if i == 0 then None
    else
      match steps[i - 1]
      case Add(k, initiator) => if initiator then None else Some(k)
      case Received(k) =>
        if LastOffered(trace, steps, i - 1) == Some(k) then None else LastOffered(trace, steps, i - 1)
      case Clear => None
  }

  /** In every run current is the keypair activated last, and next the one offered and not yet confirmed. */
  lemma {:induction false} CurrentIsLast(trace: seq<State>, steps: seq<Step>, i: nat)
    requires IsRun(trace, steps) && i < |trace|
    ensures trace[i].current == LastActivated(trace, steps, i) && trace[i].next == LastOffered(trace, steps, i)
  {
    if i == 0 {
    } else {
      CurrentIsLast(trace, steps, i - 1);
      assert IsStep(trace, steps, i - 1);
    }
  }

  /** The step pushes keypair k out of the slots. */
  predicate PushesOut(s: State, step: Step, k: Id) {
    match step
    case Clear => true
    case Received(x) => s.next == Some(x) && s.previous == Some(k)
    case Add(_, initiator) =>
      || s.previous == Some(k)
      || (initiator && s.next.Some? && s.current == Some(k))
      || (!initiator && s.next == Some(k))
  }

  /**
   Exactly when a keypair leaves the slots.  The one in use leaves only with all others, or when an
   initiator's keypair comes in while another waits to be confirmed.
   */
  lemma LeavesIff(trace: seq<State>, steps: seq<Step>, i: nat, k: Id)
    requires IsRun(trace, steps) && i < |steps| && InSlot(trace[i], k)
    ensures !InSlot(trace[i + 1], k) <==> PushesOut(trace[i], steps[i], k)
    ensures trace[i].current == Some(k) ==>
            (!InSlot(trace[i + 1], k) <==>
               steps[i].Clear? || (steps[i].Add? && steps[i].initiator && trace[i].next.Some?))
  {
    RunInv(trace, steps, i);
    assert IsStep(trace, steps, i);
  }

  /** Where the keypair in use goes when another takes its place: it is kept for what is still on its way. */
  lemma KeptAsPrevious(trace: seq<State>, steps: seq<Step>, i: nat)
    requires IsRun(trace, steps) && i < |steps|
    ensures var (s, t) := (trace[i], trace[i + 1]);
            match steps[i]
            case Clear => t.previous.None?
            case Received(k) => t.previous == if s.next == Some(k) then s.current else s.previous
            case Add(_, initiator) =>
              if !initiator then t.previous.None? else if s.next.Some? then t.previous == s.next
              else t.previous == s.current
  {
    assert IsStep(trace, steps, i);
  }

  /** A keypair that others have taken over from since is out after the second takeover, at the latest. */
  lemma {:induction false} OutAfterTwo(trace: seq<State>, steps: seq<Step>, i: nat, j: nat, k: Id)
    requires IsRun(trace, steps) && i < j < |steps| && trace[i].current == Some(k)
    requires !steps[i].Clear? && Activates(trace[i], steps[i], steps[i].k)
    requires !steps[j].Clear? && Activates(trace[j], steps[j], steps[j].k)
    ensures !InSlot(trace[j + 1], k)
  {
    RunInv(trace, steps, i);
    assert IsStep(trace, steps, i);
    RunInv(trace, steps, i + 1);
    OnlyBehind(trace, steps, i + 1, j, k);
    RunInv(trace, steps, j);
    assert IsStep(trace, steps, j);
  }

  /** A keypair that is neither in use nor offered never is again. */
  lemma {:induction false} OnlyBehind(trace: seq<State>, steps: seq<Step>, i: nat, j: nat, k: Id)
    requires IsRun(trace, steps) && i <= j < |trace| && k in trace[i].refs
    requires trace[i].current != Some(k) && trace[i].next != Some(k)
    ensures k in trace[j].refs && trace[j].current != Some(k) && trace[j].next != Some(k)
    decreases j - i
  {
    if i == j {
    } else {
      OnlyBehind(trace, steps, i, j - 1, k);
      assert IsStep(trace, steps, j - 1);
    }
  }

  // ---------------------------------------------------------------- in place

  class Slots {
    var current: Option<Id>
    var previous: Option<Id>
    var next: Option<Id>
    var refs: map<Id, int>
    var initiator: map<Id, bool>
    ghost var confirmed: set<Id>

    ghost function View(): State
      reads this
    {
      State(current, previous, next, refs, initiator, confirmed)
    }

    constructor ()
      ensures Init(View())
    {
      current, previous, next, refs, initiator, confirmed := None, None, None, map[], map[], {};
    }

    method KeypairPut(k: Option<Id>)
      modifies this`refs
      ensures refs == Put(old(refs), k)
    {
      if k.Some? && k.value in refs { refs := refs[k.value := refs[k.value] - 1]; }
    }

    /** add_new_keypair() of a keypair that was just created */
    method AddNewKeypair(k: Id, isInitiator: bool)
      requires Inv(View()) && k !in refs
      modifies this
      ensures View() == AddStep(old(View()), k, isInitiator) && Inv(View())
    {
      AddOk(View(), k, isInitiator);
      refs, initiator := refs[k := 1], initiator[k := isInitiator];
      var previousKeypair, nextKeypair, currentKeypair := previous, next, current;
      if isInitiator {
        if nextKeypair.Some? {
          next := None;
          previous := nextKeypair;
          KeypairPut(currentKeypair);
        } else {
          previous := currentKeypair;
        }
        KeypairPut(previousKeypair);
        current := Some(k);
      } else {
        next := Some(k);
        KeypairPut(nextKeypair);
        previous := None;
        KeypairPut(previousKeypair);
      }
    }

    /** wg_noise_received_with_keypair(), true exactly when the keypair was next */
    method ReceivedWithKeypair(k: Id) returns (isNew: bool)
      requires Inv(View())
      modifies this
      ensures View() == ReceivedStep(old(View()), k) && Inv(View())
      ensures isNew <==> old(next) == Some(k)
    {
      ReceivedOk(View(), k);
      if next != Some(k) { return false; }
      var displaced := previous;
      previous := current;
      KeypairPut(displaced);
      current := Some(k);
      next := None;
      confirmed := confirmed + {k};
      return true;
    }

    /** wg_noise_keypairs_clear() */
    method KeypairsClear()
      requires Inv(View())
      modifies this
      ensures View() == ClearStep(old(View())) && Inv(View())
      ensures forall k :: k in refs ==> refs[k] == 0
    {
      ClearOk(View());
      var k := next;
      next := None;
      KeypairPut(k);
      k := previous;
      previous := None;
      KeypairPut(k);
      k := current;
      current := None;
      KeypairPut(k);
    }
  }
}
