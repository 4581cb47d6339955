/**
 The anti-replay window of a receiving key: a ring of words that stands for the set of all
 counters accepted so far, as in section 2 of RFC 6479, on a machine with 64-bit words.
 */
module ReplayWindow {

  const BITS_PER_LONG := 64
  const COUNTER_BITS_TOTAL := 8192
  const COUNTER_WINDOW_SIZE := COUNTER_BITS_TOTAL - BITS_PER_LONG
  const U64_MAX := 0xffff_ffff_ffff_ffff
  const REJECT_AFTER_MESSAGES := U64_MAX - COUNTER_WINDOW_SIZE - 1

  /** A word as the set of its bits that are set. */
  type Word = set<nat>

  /** struct noise_replay_counter */
  datatype Window = Window(counter: nat, ring: seq<Word>)

  function Zero(): Window { Window(0, seq(128, i => {})) }

  // ---------------------------------------------------------------- the code

  /** The clearing loop: the n words that follow word `from` on the ring. */
  function Clear(ring: seq<Word>, from: nat, n: nat): (r: seq<Word>)
    requires |ring| == 128
    ensures |r| == 128
    decreases n
  {
    if n == 0 then ring else Clear(ring, from, n - 1)[(n + from) % 128 := {}]
  }

  function Min(a: nat, b: nat): nat { if a < b then a else b }

  /** counter_validate() */
  function Validate(w: Window, c: nat): (r: (Window, bool))
    requires |w.ring| == 128
    ensures |r.0.ring| == 128
  {
    if w.counter >= REJECT_AFTER_MESSAGES + 1 || c >= REJECT_AFTER_MESSAGES then (w, false)
    else
      var their := c + 1;
      if COUNTER_WINDOW_SIZE + their < w.counter then (w, false)
      else
        var index, current := their / 64, w.counter / 64;
        var ring := if their > w.counter then Clear(w.ring, current, Min(index - current, 128)) else w.ring;
        var word := ring[index % 128];
        (Window(if their > w.counter then their else w.counter, ring[index % 128 := word + {their % 64}]),
         their % 64 !in word)
  }

  // ---------------------------------------------------------------- what it stands for

  /** Accepted counters are the bits of the last 128 words; a counter c is kept as c + 1. */
  predicate InRing(w: Window, t: nat) { w.counter / 64 - 128 < t / 64 <= w.counter / 64 }

  predicate Bit(ring: seq<Word>, t: nat)
    requires |ring| == 128
  {
    t % 64 in ring[(t / 64) % 128]
  }

  ghost predicate StandsFor(w: Window, accepted: set<nat>) {
    && |w.ring| == 128 && w.counter <= REJECT_AFTER_MESSAGES
    && (forall c :: c in accepted ==> c < w.counter)
    && (w.counter > 0 ==> w.counter - 1 in accepted)
    && (forall t: nat :: InRing(w, t) ==> (Bit(w.ring, t) <==> t > 0 && t - 1 in accepted))
  }

  /** A set of accepted counters lets c in: new, not too large, not too far behind the highest. */
  predicate Admits(accepted: set<nat>, c: nat) {
    c < REJECT_AFTER_MESSAGES && c !in accepted && forall a :: a in accepted ==> a - c <= COUNTER_WINDOW_SIZE
  }

  // ---------------------------------------------------------------- the ring

  /** Two words less than a full turn apart are at different places on the ring. */
  lemma Elsewhere(a: nat, b: nat)
    requires a < b < a + 128
    ensures a % 128 != b % 128
  {
  }

  /** Clearing n words after `from` empties those and leaves the words up to it alone. */
  lemma {:induction false} ClearAt(ring: seq<Word>, from: nat, n: nat, w: nat)
    requires |ring| == 128 && n <= 128
    ensures from < w <= from + n ==> Clear(ring, from, n)[w % 128] == {}
    ensures w <= from && from + n < w + 128 ==> Clear(ring, from, n)[w % 128] == ring[w % 128]
  {
    if n > 0 {
      ClearAt(ring, from, n - 1, w);
      if w < from + n && from + n < w + 128 { Elsewhere(w, from + n); }
      if from < w < from + n { Elsewhere(w, from + n); }
    }
  }

  /** A full turn empties every word. */
  lemma ClearAll(ring: seq<Word>, from: nat, w: nat)
    requires |ring| == 128 && from < w
    ensures Clear(ring, from, 128)[w % 128] == {}
  {
    var v := from + 1 + (w - from - 1) % 128;
    assert v % 128 == w % 128;
    ClearAt(ring, from, 128, v);
  }

  /** After the window has moved up, the ring stands for the same counters. */
  lemma MoveUp(w: Window, accepted: set<nat>, their: nat, t: nat)
    requires StandsFor(w, accepted) && w.counter < their && InRing(Window(their, w.ring), t)
    ensures var ring := Clear(w.ring, w.counter / 64, Min(their / 64 - w.counter / 64, 128));
            Bit(ring, t) <==> t > 0 && t - 1 in accepted
  {
    var from, n := w.counter / 64, Min(their / 64 - w.counter / 64, 128);
    ClearAt(w.ring, from, n, t / 64);
    if t / 64 <= from {
      assert InRing(w, t);
    } else {
      if n == 128 { ClearAll(w.ring, from, t / 64); }
      assert t > w.counter;
    }
  }

  /** Setting one bit changes the membership of one counter of the window only. */
  lemma SetBit(ring: seq<Word>, top: nat, t: nat, u: nat)
    requires |ring| == 128 && top / 64 - 128 < t / 64 <= top / 64 && top / 64 - 128 < u / 64 <= top / 64
    ensures Bit(ring[(t / 64) % 128 := ring[(t / 64) % 128] + {t % 64}], u) <==> Bit(ring, u) || u == t
  {
    if u / 64 < t / 64 { Elsewhere(u / 64, t / 64); }
    if t / 64 < u / 64 { Elsewhere(t / 64, u / 64); }
  }

  /** One call: accepted exactly when the set of accepted counters admits it, and then added to it. */
  lemma ValidateIs(w: Window, accepted: set<nat>, c: nat)
    requires StandsFor(w, accepted)
    ensures Validate(w, c).1 <==> Admits(accepted, c)
    ensures StandsFor(Validate(w, c).0, if Admits(accepted, c) then accepted + {c} else accepted)
  {
    if c < REJECT_AFTER_MESSAGES && w.counter <= COUNTER_WINDOW_SIZE + c + 1 {
      ValidateInWindow(w, accepted, c);
    } else if c < REJECT_AFTER_MESSAGES {
      assert w.counter - 1 in accepted && (w.counter - 1) - c > COUNTER_WINDOW_SIZE;
    }
  }

  /** The bits of the window ending at `counter` are those of the accepted counters. */
  ghost predicate BitsFor(ring: seq<Word>, counter: nat, accepted: set<nat>) {
    |ring| == 128 && forall t: nat :: InRing(Window(counter, ring), t) ==>
      (Bit(ring, t) <==> t > 0 && t - 1 in accepted)
  }

  lemma RoomMade(w: Window, accepted: set<nat>, their: nat)
    requires StandsFor(w, accepted) && w.counter < their
    ensures BitsFor(Clear(w.ring, w.counter / 64, Min(their / 64 - w.counter / 64, 128)), their, accepted)
  {
    var ring := Clear(w.ring, w.counter / 64, Min(their / 64 - w.counter / 64, 128));
    forall t: nat | InRing(Window(their, ring), t)
      ensures Bit(ring, t) <==> t > 0 && t - 1 in accepted
    {
      MoveUp(w, accepted, their, t);
    }
  }

  lemma CounterMarked(ring: seq<Word>, counter: nat, accepted: set<nat>, c: nat)
    requires BitsFor(ring, counter, accepted) && InRing(Window(counter, ring), c + 1)
    ensures BitsFor(ring[((c + 1) / 64) % 128 := ring[((c + 1) / 64) % 128] + {(c + 1) % 64}], counter, accepted + {c})
  {
    var ring' := ring[((c + 1) / 64) % 128 := ring[((c + 1) / 64) % 128] + {(c + 1) % 64}];
    forall t: nat | InRing(Window(counter, ring'), t)
      ensures Bit(ring', t) <==> t > 0 && t - 1 in accepted + {c}
    {
      SetBit(ring, counter, c + 1, t);
      assert InRing(Window(counter, ring), t);
    }
  }

  lemma ValidateInWindow(w: Window, accepted: set<nat>, c: nat)
    requires StandsFor(w, accepted) && c < REJECT_AFTER_MESSAGES && w.counter <= COUNTER_WINDOW_SIZE + c + 1
    ensures Validate(w, c).1 <==> Admits(accepted, c)
    ensures StandsFor(Validate(w, c).0, if Admits(accepted, c) then accepted + {c} else accepted)
  {
    var their := c + 1;
    var counter := if their > w.counter then their else w.counter;
    var ring := if their > w.counter then Clear(w.ring, w.counter / 64, Min(their / 64 - w.counter / 64, 128))
      else w.ring;
    assert Admits(accepted, c) <==> c !in accepted;
    assert BitsFor(ring, counter, accepted) by {
      if their > w.counter { RoomMade(w, accepted, their); }
    }
    assert InRing(Window(counter, ring), their);
    CounterMarked(ring, counter, accepted, c);
    assert c in accepted ==> accepted + {c} == accepted;
  }

  // ---------------------------------------------------------------- every sequence of counters

  function After(cs: seq<nat>): (w: Window)
    ensures |w.ring| == 128
  {
    if cs == [] then Zero() else Validate(After(cs[..|cs| - 1]), cs[|cs| - 1]).0
  }

  /** The counters a plain set would have let in. */
  function AcceptedBy(cs: seq<nat>): set<nat> {
    if cs == [] then {}
    else
      var before := AcceptedBy(cs[..|cs| - 1]);
      var c := cs[|cs| - 1];
      if Admits(before, c) then before + {c} else before
  }

  lemma {:induction false} AfterStandsFor(cs: seq<nat>)
    ensures StandsFor(After(cs), AcceptedBy(cs))
  {
    if cs != [] {
      AfterStandsFor(cs[..|cs| - 1]);
      ValidateIs(After(cs[..|cs| - 1]), AcceptedBy(cs[..|cs| - 1]), cs[|cs| - 1]);
    }
  }

  /**
   After any sequence of counters the next one is accepted exactly when it is below the limit,
   was not accepted before, and is within the window of the highest accepted one.
   */
  lemma WindowIsSet(cs: seq<nat>, c: nat)
    ensures Validate(After(cs), c).1 <==>
            && c < REJECT_AFTER_MESSAGES && c !in AcceptedBy(cs)
            && forall a :: a in AcceptedBy(cs) ==> a - c <= COUNTER_WINDOW_SIZE
  {
    AfterStandsFor(cs);
    ValidateIs(After(cs), AcceptedBy(cs), c);
  }

  /** No counter is accepted twice. */
  lemma NeverTwice(cs: seq<nat>, more: seq<nat>, c: nat)
    requires Validate(After(cs), c).1
    ensures !Validate(After(cs + [c] + more), c).1
  {
    WindowIsSet(cs, c);
    assert (cs + [c])[..|cs|] == cs;
    assert c in AcceptedBy(cs + [c]);
    StaysAccepted(cs + [c], more, c);
    WindowIsSet(cs + [c] + more, c);
  }

  lemma {:induction false} StaysAccepted(cs: seq<nat>, more: seq<nat>, c: nat)
    requires c in AcceptedBy(cs)
    ensures c in AcceptedBy(cs + more)
  {
    if more == [] {
      assert cs + more == cs;
    } else {
      StaysAccepted(cs, more[..|more| - 1], c);
      assert (cs + more)[..|cs + more| - 1] == cs + more[..|more| - 1];
    }
  }

  /** The sums of the code fit in 64 bits whenever they are formed. */
  lemma NoWrap(cs: seq<nat>, c: nat)
    requires c < REJECT_AFTER_MESSAGES
    ensures After(cs).counter <= REJECT_AFTER_MESSAGES < REJECT_AFTER_MESSAGES + 1 <= U64_MAX
    ensures c + 1 <= U64_MAX && COUNTER_WINDOW_SIZE + (c + 1) <= U64_MAX
    ensures Min((c + 1) / 64, 128) + After(cs).counter / 64 <= U64_MAX
  {
    AfterStandsFor(cs);
  }

  // ---------------------------------------------------------------- in place

  class ReplayCounter {
    var counter: nat
    const backtrack: array<Word>

    constructor ()
      ensures fresh(backtrack) && backtrack.Length == 128 && counter == 0 && backtrack[..] == Zero().ring
    {
      counter := 0;
      backtrack := new Word[128](_ => {});
    }

    /** The loop that empties the words the window moves over. */
    method ClearWords(current: nat, top: nat)
      requires backtrack.Length == 128
      modifies backtrack
      ensures backtrack[..] == Clear(old(backtrack[..]), current, top)
    {
      ghost var was := backtrack[..];
      var i := 1;
      while i <= top
        invariant 1 <= i <= top + 1 && backtrack[..] == Clear(was, current, i - 1)
      {
        backtrack[(i + current) % 128] := {};
        i := i + 1;
      }
    }

    /** counter_validate() */
    method CounterValidate(c: nat) returns (ok: bool)
      requires backtrack.Length == 128 && c <= U64_MAX
      modifies this`counter, backtrack
      ensures (Window(counter, backtrack[..]), ok) == Validate(Window(old(counter), old(backtrack[..])), c)
    {
      if counter >= REJECT_AFTER_MESSAGES + 1 || c >= REJECT_AFTER_MESSAGES { return false; }
      var their := c + 1;
      if COUNTER_WINDOW_SIZE + their < counter { return false; }
      var index := their / 64;
      if their > counter {
        ClearWords(counter / 64, Min(index - counter / 64, 128));
        counter := their;
      }
      index := index % 128;
      ok := their % 64 !in backtrack[index];
      backtrack[index] := backtrack[index] + {their % 64};
    }
  }
}
