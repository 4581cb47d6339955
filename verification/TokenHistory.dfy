/**
 Whole histories of one source of the rate limiter: packets, packets that overlap, and the
 collector, in any order.  What gets through any stretch of a history is bounded, and exactly
 those events are found that let a source get more than its due.
 */
module TokenHistory {
  import opened Maybe
  import opened TokenBucket
  import opened TokenSource

  /** The entries of the source after a history that began with none. */
  function After(evs: seq<Event>): State {
    if evs == [] then State([], [], multiset{}) else Next(After(evs[..|evs| - 1]), evs[|evs| - 1]).0
  }

  /** Event k lets a packet through. */
  predicate LetThrough(evs: seq<Event>, k: nat)
    requires k < |evs|
  {
    Next(After(evs[..k]), evs[k]).1
  }

  /** The packets let through from event i on. */
  function Through(evs: seq<Event>, i: nat): nat {
    if |evs| <= i then 0
    else Through(evs[..|evs| - 1], i) + if LetThrough(evs, |evs| - 1) then 1 else 0
  }

  /** Time does not run backwards. */
  predicate Ordered(evs: seq<Event>) { forall a, b :: 0 <= a <= b < |evs| ==> evs[a].now <= evs[b].now }

  /** The packets that have missed and not yet linked their entry. */
  function Waiting(evs: seq<Event>): int {
    if evs == [] then 0
    else
      var last := evs[|evs| - 1];
      Waiting(evs[..|evs| - 1]) + if last.Miss? then 1 else if last.Late? then -1 else 0
  }

  /**
   Only a packet that missed is late, only one that found an entry updates it.  A search that
   entries overtake may miss them all, or find one that is not the newest.
   */
  predicate CanHappen(s: State, waiting: int, ev: Event) {
    && Sane(ev)
    && match ev
       case Packet(_, _) => true
       case Miss(_) => true
       case Late(_, _) => waiting > 0
       case Found(_, at) => at < |s.listed|
       case Update(_, id) => id in s.held
       case Visit(_, _, at) => at < |s.listed|
  }

  predicate PossibleAt(evs: seq<Event>, k: nat)
    requires k < |evs|
  {
    CanHappen(After(evs[..k]), Waiting(evs[..k]), evs[k])
  }

  predicate Possible(evs: seq<Event>) { forall k :: 0 <= k < |evs| ==> PossibleAt(evs, k) }

  predicate RefillAt(evs: seq<Event>, k: nat)
    requires k < |evs|
  {
    Refills(After(evs[..k]), evs[k])
  }

  predicate NoRefills(evs: seq<Event>) { forall k :: 0 <= k < |evs| ==> !RefillAt(evs, k) }

  /** What event k can give away on top of a full bucket. */
  function ExtraAt(evs: seq<Event>, k: nat): nat
    requires k < |evs|
  {
    Extra(After(evs[..k]), evs[k])
  }

  function GiftAt(evs: seq<Event>, k: nat): nat
    requires k < |evs|
  {
    Gift(After(evs[..k]), evs[k])
  }

  /** What the refills from event i on give away, at most. */
  function GivenFrom(evs: seq<Event>, i: nat): nat {
    if |evs| <= i then 0 else GivenFrom(evs[..|evs| - 1], i) + GiftAt(evs, |evs| - 1)
  }

  // ---------------------------------------------------------------- prefixes and extensions

  lemma {:induction false} PrefixOk(evs: seq<Event>, j: nat)
    requires j <= |evs|
    ensures Ordered(evs) ==> Ordered(evs[..j])
    ensures Possible(evs) ==> Possible(evs[..j])
    ensures NoRefills(evs) ==> NoRefills(evs[..j])
  {
    forall k | 0 <= k < j
      ensures evs[..j][..k] == evs[..k]
    {
    }
    if Possible(evs) {
      forall k | 0 <= k < j ensures PossibleAt(evs[..j], k) { assert PossibleAt(evs, k) && evs[..j][..k] == evs[..k]; }
    }
    if NoRefills(evs) {
      forall k | 0 <= k < j ensures !RefillAt(evs[..j], k) { assert !RefillAt(evs, k) && evs[..j][..k] == evs[..k]; }
    }
  }

  /** One event more. */
  lemma {:induction false} Grown(evs: seq<Event>, ev: Event, i: nat)
    requires i <= |evs|
    ensures After(evs + [ev]) == Next(After(evs), ev).0
    ensures Through(evs + [ev], i) == Through(evs, i) + if Next(After(evs), ev).1 then 1 else 0
    ensures RefillAt(evs + [ev], |evs|) <==> Refills(After(evs), ev)
  {
    assert (evs + [ev])[..|evs|] == evs;
  }

  lemma {:induction false} GrownOrdered(evs: seq<Event>, ev: Event)
    requires Ordered(evs) && (evs != [] ==> evs[|evs| - 1].now <= ev.now)
    ensures Ordered(evs + [ev])
  {
  }

  lemma {:induction false} GrownPossible(evs: seq<Event>, ev: Event)
    requires Possible(evs) && CanHappen(After(evs), Waiting(evs), ev)
    ensures Possible(evs + [ev])
  {
    var h := evs + [ev];
    forall k | 0 <= k < |h|
      ensures PossibleAt(h, k)
    {
      if k < |evs| { assert PossibleAt(evs, k) && h[..k] == evs[..k]; } else { assert h[..k] == evs; }
    }
  }

  lemma {:induction false} GrownNoRefills(evs: seq<Event>, ev: Event)
    requires NoRefills(evs) && !Refills(After(evs), ev)
    ensures NoRefills(evs + [ev])
  {
    var h := evs + [ev];
    forall k | 0 <= k < |h|
      ensures !RefillAt(h, k)
    {
      if k < |evs| { assert !RefillAt(evs, k) && h[..k] == evs[..k]; } else { Grown(evs, ev, 0); }
    }
  }

  lemma {:induction false} AfterOk(evs: seq<Event>)
    ensures Ok(After(evs))
  {
    if evs == [] {
    } else {
      AfterOk(evs[..|evs| - 1]);
      NextOk(After(evs[..|evs| - 1]), evs[|evs| - 1]);
    }
  }

  lemma {:induction false} AfterLast(evs: seq<Event>, t: nat)
    requires Ordered(evs) && Possible(evs) && (evs != [] ==> evs[|evs| - 1].now <= t)
    ensures Ok(After(evs)) && LastBefore(After(evs), t)
  {
    if evs == [] {
    } else {
      var n := |evs| - 1;
      PrefixOk(evs, n);
      AfterLast(evs[..n], evs[n].now);
      assert PossibleAt(evs, n);
      NextLast(After(evs[..n]), evs[n]);
    }
  }

  // ---------------------------------------------------------------- what a stretch costs

  /** The tokens used up from event i on. */
  function SpentFrom(evs: seq<Event>, i: nat): nat {
    if |evs| <= i then 0
    else SpentFrom(evs[..|evs| - 1], i) + Cost(LetThrough(evs, |evs| - 1))
  }

  lemma {:induction false} SpentFromIs(evs: seq<Event>, i: nat)
    ensures SpentFrom(evs, i) == Through(evs, i) * 50_000_000
  {
    if |evs| <= i {
    } else {
      SpentFromIs(evs[..|evs| - 1], i);
    }
  }

  lemma {:induction false} LastPays(evs: seq<Event>)
    requires Ordered(evs) && Possible(evs) && evs != []
    ensures var n := |evs| - 1;
            var paid := Cost(LetThrough(evs, n)) + AtHandOf(After(evs), evs[n].now);
            && paid <= TOKEN_MAX + ExtraAt(evs, n)
            && paid <= AtHandOf(After(evs[..n]), evs[n].now) + GiftAt(evs, n)
  {
    var n := |evs| - 1;
    PrefixOk(evs, n);
    AfterLast(evs[..n], evs[n].now);
    assert PossibleAt(evs, n);
    NextPays(After(evs[..n]), evs[n]);
  }

  lemma {:induction false} HandGrows(evs: seq<Event>, t: nat)
    requires Ordered(evs) && Possible(evs) && evs != [] && evs[|evs| - 1].now <= t
    ensures var now := evs[|evs| - 1].now;
            AtHandOf(After(evs), t) == Min(TOKEN_MAX, AtHandOf(After(evs), now) + (t - now))
  {
    AfterLast(evs, evs[|evs| - 1].now);
    AtHandGrows(After(evs), evs[|evs| - 1].now, t);
  }

  lemma {:induction false} StretchPays(evs: seq<Event>, i: nat)
    requires Ordered(evs) && Possible(evs) && i < |evs|
    ensures SpentFrom(evs, i) + AtHandOf(After(evs), evs[|evs| - 1].now)
            <= TOKEN_MAX + (evs[|evs| - 1].now - evs[i].now) + ExtraAt(evs, i) + GivenFrom(evs, i + 1)
  {
    var n := |evs| - 1;
    LastPays(evs);
    if i < n {
      PrefixOk(evs, n);
      StretchPays(evs[..n], i);
      assert evs[..n][..i] == evs[..i];
      HandGrows(evs[..n], evs[n].now);
    }
  }

  /**
   Every stretch of every history: what gets through is paid by one burst, the time that passes,
   and what the refills inside the stretch give away.
   */
  lemma {:induction false} EveryStretch(evs: seq<Event>, i: nat, j: nat)
    requires Ordered(evs) && Possible(evs) && i < j <= |evs|
    ensures Through(evs[..j], i) * PACKET_COST
            <= TOKEN_MAX + (evs[j - 1].now - evs[i].now) + ExtraAt(evs, i) + GivenFrom(evs[..j], i + 1)
  {
    PrefixOk(evs, j);
    StretchPays(evs[..j], i);
    SpentFromIs(evs[..j], i);
    assert evs[..j][..i] == evs[..i];
  }

  lemma {:induction false} NoGiftAt(evs: seq<Event>, k: nat)
    requires k < |evs| && !RefillAt(evs, k)
    ensures GiftAt(evs, k) == 0 && ExtraAt(evs, k) == 0
  {
    NoGift(After(evs[..k]), evs[k]);
  }

  lemma {:induction false} NoneFrom(evs: seq<Event>, i: nat)
    requires forall k :: i <= k < |evs| ==> !RefillAt(evs, k)
    ensures GivenFrom(evs, i) == 0
  {
    if |evs| <= i {
    } else {
      var n := |evs| - 1;
      forall k | i <= k < n ensures !RefillAt(evs[..n], k) { assert !RefillAt(evs, k) && evs[..n][..k] == evs[..k]; }
      NoneFrom(evs[..n], i);
      NoGiftAt(evs, n);
    }
  }

  /**
   A stretch that begins with nothing given away on top of a full bucket, and has no refill after
   its first event, keeps the limit, whatever came before it.
   */
  lemma {:induction false} StretchWithin(evs: seq<Event>, i: nat, j: nat)
    requires Ordered(evs) && Possible(evs) && i < j <= |evs| && ExtraAt(evs, i) == 0
    requires forall k :: i < k < j ==> !RefillAt(evs, k)
    ensures Through(evs[..j], i) <= Limit(evs[j - 1].now - evs[i].now)
  {
    forall k | i + 1 <= k < j ensures !RefillAt(evs[..j], k) { assert !RefillAt(evs, k) && evs[..j][..k] == evs[..k]; }
    NoneFrom(evs[..j], i + 1);
    EveryStretch(evs, i, j);
    DivideBound(Through(evs[..j], i), evs[j - 1].now - evs[i].now);
  }

  // ---------------------------------------------------------------- what a refill does

  /** Without refills, every entry but the newest is full, linked or not. */
  lemma {:induction false} OthersAreFull(evs: seq<Event>, t: nat)
    requires Ordered(evs) && Possible(evs) && NoRefills(evs) && (evs != [] ==> evs[|evs| - 1].now <= t)
    ensures OthersFull(After(evs), t)
  {
    if evs == [] {
    } else {
      var n := |evs| - 1;
      PrefixOk(evs, n);
      OthersAreFull(evs[..n], evs[n].now);
      AfterLast(evs[..n], evs[n].now);
      assert PossibleAt(evs, n) && !RefillAt(evs, n);
      NextOthersFull(After(evs[..n]), evs[n]);
      OthersStayFull(After(evs), evs[n].now, t);
    }
  }

  /** One event more in a history without refills: what is at hand is what it was, less what was let through. */
  lemma {:induction false} LastExact(evs: seq<Event>)
    requires Ordered(evs) && Possible(evs) && NoRefills(evs) && evs != []
    ensures var n := |evs| - 1;
            Cost(LetThrough(evs, n)) + AtHandOf(After(evs), evs[n].now) == AtHandOf(After(evs[..n]), evs[n].now)
  {
    var n := |evs| - 1;
    PrefixOk(evs, n);
    OthersAreFull(evs[..n], evs[n].now);
    AfterLast(evs[..n], evs[n].now);
    assert PossibleAt(evs, n) && !RefillAt(evs, n);
    NextExact(After(evs[..n]), evs[n]);
  }

  lemma {:induction false} SpentGrows(evs: seq<Event>, i: nat)
    requires i < |evs|
    ensures SpentFrom(evs, i) == SpentFrom(evs[..|evs| - 1], i) + Cost(LetThrough(evs, |evs| - 1))
  {
  }

  /** The time from event i to a moment; none, if event i is still to come. */
  function Since(evs: seq<Event>, i: nat, t: nat): int { if i < |evs| then t - evs[i].now else 0 }

  lemma {:induction false} SinceGrows(evs: seq<Event>, i: nat, t: nat)
    requires i < |evs|
    ensures Since(evs, i, t) == Since(evs[..|evs| - 1], i, evs[|evs| - 1].now) + t - evs[|evs| - 1].now
  {
  }

  /** What was let through since event i, and what is at hand, are a burst and the time since. */
  predicate PaidSince(evs: seq<Event>, i: nat, t: nat) {
    SpentFrom(evs, i) + AtHandOf(After(evs), t) == TOKEN_MAX + Since(evs, i, t)
  }

  lemma {:induction false} PaidGrows(evs: seq<Event>, i: nat, t: nat)
    requires Ordered(evs) && Possible(evs) && NoRefills(evs) && i < |evs| && evs[|evs| - 1].now <= t
    requires AtHandOf(After(evs), t) < TOKEN_MAX && PaidSince(evs[..|evs| - 1], i, evs[|evs| - 1].now)
    ensures PaidSince(evs, i, t)
  {
    var n := |evs| - 1;
    var hand := AtHandOf(After(evs), evs[n].now);
    assert AtHandOf(After(evs), t) == hand + (t - evs[n].now) by { HandGrows(evs, t); }
    LastExact(evs);
    SpentGrows(evs, i);
    SinceGrows(evs, i, t);
  }

  /**
   The bucket was full once, or is now: since then, what got through cost a whole burst and all
   the time that has passed, less what is at hand.
   */
  lemma {:induction false} FullSince(evs: seq<Event>, t: nat) returns (i: nat)
    requires Ordered(evs) && Possible(evs) && NoRefills(evs) && (evs != [] ==> evs[|evs| - 1].now <= t)
    ensures i <= |evs| && (AtHandOf(After(evs), t) < TOKEN_MAX ==> i < |evs|)
    ensures PaidSince(evs, i, t)
    decreases |evs|
  {
    i := |evs|;
    if AtHandOf(After(evs), t) < TOKEN_MAX {
      var n := |evs| - 1;
      PrefixOk(evs, n);
      i := FullSince(evs[..n], evs[n].now);
      PaidGrows(evs, i, t);
    }
  }

  /** k packets at one moment */
  function Packets(t: nat, k: nat): (r: seq<Event>)
    ensures |r| == k && AllPackets(r) && forall i :: 0 <= i < k ==> r[i].now == t
  {
    seq(k, i => Packet(t, true))
  }

  lemma {:induction false} OnePasses(s: State, t: nat)
    requires Ok(s) && AtHandOf(s, t) >= PACKET_COST
    ensures Next(s, Packet(t, true)).1 && Ok(Next(s, Packet(t, true)).0)
    ensures AtHandOf(Next(s, Packet(t, true)).0, t) == AtHandOf(s, t) - PACKET_COST
  {
    NextOk(s, Packet(t, true));
  }

  function Price(k: nat): nat { if k == 0 then 0 else Price(k - 1) + PACKET_COST }

  lemma {:induction false} BurstPasses(evs: seq<Event>, t: nat, k: nat, i: nat)
    requires i <= |evs| && Price(k) <= AtHandOf(After(evs), t)
    ensures Through(evs + Packets(t, k), i) == Through(evs, i) + k
    ensures AtHandOf(After(evs + Packets(t, k)), t) + Price(k) == AtHandOf(After(evs), t)
  {
    if k == 0 {
      assert evs + Packets(t, 0) == evs;
    } else {
      BurstPasses(evs, t, k - 1, i);
      var h := evs + Packets(t, k - 1);
      assert evs + Packets(t, k) == h + [Packet(t, true)];
      Grown(h, Packet(t, true), i);
      AfterOk(h);
      OnePasses(After(h), t);
    }
  }

  lemma {:induction false} PriceIs(k: nat)
    ensures Price(k) == k * 50_000_000
  {
    if k == 0 {
    } else {
      PriceIs(k - 1);
    }
  }

  lemma {:induction false} BurstOrdered(evs: seq<Event>, t: nat, k: nat)
    requires Ordered(evs) && (evs != [] ==> evs[|evs| - 1].now <= t)
    ensures Ordered(evs + Packets(t, k))
  {
  }

  /** Some stretch of the history exceeds the limit. */
  ghost predicate Broken(evs: seq<Event>) {
    exists i, j ::
      0 <= i < j <= |evs| && evs[i].now <= evs[j - 1].now && Through(evs[..j], i) > Limit(evs[j - 1].now - evs[i].now)
  }

  predicate AllPackets(more: seq<Event>) { forall k :: 0 <= k < |more| ==> more[k].Packet? }

  /** Some packets sent after the event exceed the limit, in some stretch. */
  ghost predicate CanBreak(evs: seq<Event>, ev: Event) {
    exists more :: AllPackets(more) && Ordered(evs + [ev] + more) && Broken(evs + [ev] + more)
  }

  /** The packets to send for what is at hand: at least one, and a packet even for a part of its cost. */
  function Worth(hand: nat): (m: nat)
    ensures m >= 1 && hand <= m * 50_000_000 && (hand <= 250_000_000 ==> m <= 5)
  {
    if hand == 0 then 1 else (hand + 49_999_999) / 50_000_000
  }

  /** One token more than was due is enough for one packet too many. */
  lemma {:induction false} TooMany(n: nat, hand: nat, length: nat, m: nat, l: nat)
    requires n * 50_000_000 + hand > 250_000_000 + length
    requires hand <= m * 50_000_000 && l == length + (m * 50_000_000 - hand)
    ensures n + m > Limit(l)
  {
    assert l < (n + m - 5) * 50_000_000;
  }

  /** After a refill, what was let through and what is at hand are more than a burst and the time that passed. */
  lemma {:induction false} Overdrawn(evs: seq<Event>, ev: Event) returns (i: nat)
    requires Ordered(evs + [ev]) && Possible(evs + [ev]) && NoRefills(evs) && Refills(After(evs), ev)
    ensures i <= |evs|
    ensures SpentFrom(evs + [ev], i) + AtHandOf(After(evs + [ev]), ev.now)
            > TOKEN_MAX + (ev.now - (evs + [ev])[i].now)
  {
    var e1 := evs + [ev];
    assert e1[..|evs|] == evs && e1[|evs|] == ev;
    PrefixOk(e1, |evs|);
    assert evs != [] ==> e1[|evs| - 1].now <= e1[|evs|].now;
    i := FullSince(evs, ev.now);
    OthersAreFull(evs, ev.now);
    AfterLast(evs, ev.now);
    assert PossibleAt(e1, |evs|);
    RefillExceeds(After(evs), ev);
    SpentGrows(e1, i);
    SinceGrows(e1, i, ev.now);
    Grown(evs, ev, i);
  }

  lemma {:induction false} BrokenBy(evs: seq<Event>, more: seq<Event>, i: nat, t: nat)
    requires i < |evs| && more != [] && more[|more| - 1].now == t && evs[i].now <= t
    requires Through(evs + more, i) > Limit(t - evs[i].now)
    ensures Broken(evs + more)
  {
    var h := evs + more;
    assert h[..|h|] == h && h[i] == evs[i] && h[|h| - 1] == more[|more| - 1];
  }

  /** What is at hand grows until it is worth a whole number of packets. */
  lemma {:induction false} WaitForWorth(evs: seq<Event>, hand: nat, m: nat, t: nat)
    requires Ordered(evs) && Possible(evs) && evs != [] && hand == AtHandOf(After(evs), evs[|evs| - 1].now)
    requires m == Worth(hand) && t == evs[|evs| - 1].now + (m * 50_000_000 - hand)
    ensures m <= 5 && Price(m) <= AtHandOf(After(evs), t)
  {
    HandGrows(evs, t);
    PriceIs(m);
  }

  lemma {:induction false} Overdue(evs: seq<Event>, i: nat, hand: nat, length: nat)
    requires SpentFrom(evs, i) + hand > TOKEN_MAX + length
    ensures Through(evs, i) * 50_000_000 + hand > 250_000_000 + length
  {
    SpentFromIs(evs, i);
  }

  lemma {:induction false} RefillBreaks(evs: seq<Event>, ev: Event)
    requires Ordered(evs + [ev]) && Possible(evs + [ev]) && NoRefills(evs) && Refills(After(evs), ev)
    ensures CanBreak(evs, ev)
  {
    var e1 := evs + [ev];
    var i := Overdrawn(evs, ev);
    var hand := AtHandOf(After(e1), ev.now);
    var m := Worth(hand);
    var t := ev.now + (m * 50_000_000 - hand);
    WaitForWorth(e1, hand, m, t);
    Overdue(e1, i, hand, ev.now - e1[i].now);
    TooMany(Through(e1, i), hand, ev.now - e1[i].now, m, t - e1[i].now);
    BurstPasses(e1, t, m, i);
    BurstOrdered(e1, t, m);
    BrokenBy(e1, Packets(t, m), i, t);
  }

  lemma {:induction false} PacketsHarmless(evs: seq<Event>, more: seq<Event>)
    requires Possible(evs) && NoRefills(evs) && AllPackets(more)
    ensures Possible(evs + more) && NoRefills(evs + more)
  {
    var h := evs + more;
    forall k | 0 <= k < |h|
      ensures PossibleAt(h, k) && !RefillAt(h, k)
    {
      if k < |evs| { assert PossibleAt(evs, k) && !RefillAt(evs, k) && h[..k] == evs[..k]; }
    }
  }

  lemma {:induction false} NotBroken(evs: seq<Event>)
    requires Ordered(evs) && Possible(evs) && NoRefills(evs)
    ensures !Broken(evs)
  {
    forall i, j | 0 <= i < j <= |evs|
      ensures Through(evs[..j], i) <= Limit(evs[j - 1].now - evs[i].now)
    {
      NoGiftAt(evs, i);
      StretchWithin(evs, i, j);
    }
  }

  /**
   Which events break the limit: in a history without refills, packets sent after an event can
   exceed the limit in some stretch if and only if the event is one of those that refill.
   */
  lemma {:induction false} BreaksIff(evs: seq<Event>, ev: Event)
    requires Ordered(evs + [ev]) && Possible(evs + [ev]) && NoRefills(evs)
    ensures CanBreak(evs, ev) <==> Refills(After(evs), ev)
  {
    if Refills(After(evs), ev) {
      RefillBreaks(evs, ev);
    } else {
      GrownNoRefills(evs, ev);
      forall more | AllPackets(more) && Ordered(evs + [ev] + more)
        ensures !Broken(evs + [ev] + more)
      {
        PacketsHarmless(evs + [ev], more);
        NotBroken(evs + [ev] + more);
      }
    }
  }

  /**
   An update of an entry breaks the limit if and only if the entry is no longer the newest: any
   other is full, so that it lets the packet through.
   */
  lemma {:induction false} UpdateBreaksIff(evs: seq<Event>, now: nat, id: nat)
    requires Ordered(evs + [Update(now, id)]) && Possible(evs + [Update(now, id)]) && NoRefills(evs)
    ensures CanBreak(evs, Update(now, id)) <==> !IsNewest(After(evs), id)
  {
    var h := evs + [Update(now, id)];
    BreaksIff(evs, Update(now, id));
    assert h[..|evs|] == evs && h[|evs|] == Update(now, id) && PossibleAt(h, |evs|);
    PrefixOk(h, |evs|);
    assert evs != [] ==> h[|evs| - 1].now <= h[|evs|].now;
    OthersAreFull(evs, now);
    AfterOk(evs);
  }

  // ---------------------------------------------------------------- one bucket

  /** Every packet looked up without interference finds an entry or room for one. */
  predicate Roomy(evs: seq<Event>) {
    forall k :: 0 <= k < |evs| ==> (evs[k].Packet? ==> evs[k].room || After(evs[..k]).listed != [])
  }

  predicate IsAnswer(ev: Event) { ev.Packet? || ev.Update? || ev.Late? }

  /** The answers to the packets. */
  function Replies(evs: seq<Event>): seq<bool> {
    if evs == [] then []
    else Replies(evs[..|evs| - 1]) + if IsAnswer(evs[|evs| - 1]) then [LetThrough(evs, |evs| - 1)] else []
  }

  function Times(evs: seq<Event>): seq<nat> {
    if evs == [] then []
    else Times(evs[..|evs| - 1]) + if IsAnswer(evs[|evs| - 1]) then [evs[|evs| - 1].now] else []
  }

  lemma {:induction false} EntryJoin(e: Option<Entry>, ts: seq<nat>, t: nat)
    ensures EntryAfter(e, ts + [t]) == Some(Allow(EntryAfter(e, ts), t).0)
    ensures Answers(e, ts + [t]) == Answers(e, ts) + [Allow(EntryAfter(e, ts), t).1]
    decreases |ts|
  {
    AnswersJoin(e, ts, [t]);
    assert [t][1..] == [];
    if ts == [] {
      assert ts + [t] == [t];
    } else {
      assert (ts + [t])[1..] == ts[1..] + [t];
      EntryJoin(Some(Allow(e, ts[0]).0), ts[1..], t);
    }
  }

  /** A single entry that no collector touches holds the same tokens. */
  predicate Similar(s: State, e: Option<Entry>, now: nat) {
    AtHandOf(s, now) == AtHand(e, now) && (e.Some? ==> e.value.last <= now)
  }

  lemma {:induction false} SimilarStays(s: State, e: Option<Entry>, now: nat, t: nat)
    requires Ok(s) && LastBefore(s, now) && Similar(s, e, now) && now <= t
    ensures Similar(s, e, t)
  {
    AtHandGrows(s, now, t);
  }

  /** Without a refill, a packet is let through if and only if what is at hand pays for it. */
  lemma {:induction false} AnswerIs(s: State, ev: Event)
    requires Ok(s) && OthersFull(s, ev.now) && Sane(ev) && !Refills(s, ev) && IsAnswer(ev)
    requires (ev.Packet? ==> ev.room || s.listed != []) && (ev.Update? ==> ev.id in s.held)
    ensures Next(s, ev).1 == (AtHandOf(s, ev.now) >= PACKET_COST)
  {
  }

  lemma {:induction false} SimilarAnswer(s: State, e: Option<Entry>, ev: Event)
    requires Ok(s) && LastBefore(s, ev.now) && OthersFull(s, ev.now) && Sane(ev) && !Refills(s, ev) && IsAnswer(ev)
    requires (ev.Packet? ==> ev.room || s.listed != []) && (ev.Update? ==> ev.id in s.held)
    requires Similar(s, e, ev.now)
    ensures Ok(Next(s, ev).0) && Similar(Next(s, ev).0, Some(Allow(e, ev.now).0), ev.now)
    ensures Next(s, ev).1 == Allow(e, ev.now).1
  {
    AnswerIs(s, ev);
    NextExact(s, ev);
    AllowSpends(e, ev.now);
  }

  lemma {:induction false} SimilarAfter(evs: seq<Event>, t: nat)
    requires Ordered(evs) && Possible(evs) && NoRefills(evs) && Roomy(evs)
    requires evs != [] ==> evs[|evs| - 1].now <= t
    ensures Similar(After(evs), EntryAfter(None, Times(evs)), t) && Replies(evs) == Answers(None, Times(evs))
  {
    if evs == [] {
    } else {
      var n := |evs| - 1;
      var before, ev, e := evs[..n], evs[n], EntryAfter(None, Times(evs[..n]));
      PrefixOk(evs, n);
      forall k | 0 <= k < n ensures before[..k] == evs[..k] {}
      SimilarAfter(before, ev.now);
      OthersAreFull(before, ev.now);
      AfterLast(before, ev.now);
      AfterLast(evs, ev.now);
      assert PossibleAt(evs, n) && !RefillAt(evs, n);
      if IsAnswer(ev) {
        SimilarAnswer(After(before), e, ev);
        EntryJoin(None, Times(before), ev.now);
      } else {
        LastExact(evs);
        assert Times(evs) == Times(before) && Replies(evs) == Replies(before);
      }
      SimilarStays(After(evs), EntryAfter(None, Times(evs)), ev.now, t);
    }
  }

  /**
   Below the cap, a history without refills answers every packet as one bucket does that no
   collector touches and no packets overlap on.
   */
  lemma {:induction false} SameAsOneBucket(evs: seq<Event>)
    requires Ordered(evs) && Possible(evs) && NoRefills(evs) && Roomy(evs)
    ensures Replies(evs) == Answers(None, Times(evs))
  {
    SimilarAfter(evs, if evs == [] then 0 else evs[|evs| - 1].now);
  }

  /**
   No entry is late, packets update the newest entry, and a collector that comes to the newest
   entry set out no earlier than its last use.
   */
  predicate TimelyAt(evs: seq<Event>, k: nat)
    requires k < |evs|
  {
    var s := After(evs[..k]);
    match evs[k]
    case Late(_, _) => false
    case Update(_, id) => IsNewest(s, id)
    case Visit(_, began, at) => at == 0 && s.listed != [] ==> At(s, s.listed[0]).last <= began
    case _ => true
  }

  predicate Timely(evs: seq<Event>) { forall k :: 0 <= k < |evs| ==> TimelyAt(evs, k) }

  /** Below the cap, a timely collector changes no answer of any history, and refills nothing. */
  lemma {:induction false} CollectorTransparent(evs: seq<Event>)
    requires Ordered(evs) && Possible(evs) && Timely(evs) && Roomy(evs)
    ensures Replies(evs) == Answers(None, Times(evs)) && NoRefills(evs)
  {
    forall k | 0 <= k < |evs| ensures !RefillAt(evs, k) { assert TimelyAt(evs, k); }
    SameAsOneBucket(evs);
  }

  // ---------------------------------------------------------------- packets that overlap

  /** A packet misses, and five others use up a burst before its entry arrives. */
  function Overlap(): seq<Event> { [Miss(0)] + Packets(0, 5) }

  /** Its arrival is a refill: six get through at one moment, where the limit is five. */
  lemma {:induction false} OverlapBeatsLimit()
    ensures Ordered(Overlap() + [Late(0, 0)]) && Possible(Overlap() + [Late(0, 0)]) && NoRefills(Overlap())
    ensures Refills(After(Overlap()), Late(0, 0)) && Through(Overlap() + [Late(0, 0)], 0) == 6 && Limit(0) == 5
  {
    MissedFirst();
    BurstOrdered([Miss(0)], 0, 5);
    GrownOrdered(Overlap(), Late(0, 0));
    PacketsHarmless([Miss(0)], Packets(0, 5));
    PriceIs(5);
    BurstPasses([Miss(0)], 0, 5, 0);
    WaitingStays([Miss(0)], 0, 5);
    GrownPossible(Overlap(), Late(0, 0));
    Grown(Overlap(), Late(0, 0), 0);
  }

  lemma {:induction false} MissedFirst()
    ensures Possible([Miss(0)]) && NoRefills([Miss(0)]) && Through([Miss(0)], 0) == 0 && Waiting([Miss(0)]) == 1
    ensures AtHandOf(After([Miss(0)]), 0) == TOKEN_MAX
  {
    Grown([], Miss(0), 0);
    assert [] + [Miss(0)] == [Miss(0)];
  }

  lemma {:induction false} WaitingStays(evs: seq<Event>, t: nat, k: nat)
    ensures Waiting(evs + Packets(t, k)) == Waiting(evs)
  {
    if k == 0 {
      assert evs + Packets(t, 0) == evs;
    } else {
      WaitingStays(evs, t, k - 1);
      var h := evs + Packets(t, k);
      assert h[..|h| - 1] == evs + Packets(t, k - 1);
    }
  }

  /** A packet finds a full entry, the collector, on time, drops the entry, and five others use up a burst. */
  function Dropped(t: nat): seq<Event> { [Packet(0, true), Found(t, 0), Visit(t, t, 0)] }

  function DroppedThenFive(t: nat): seq<Event> { Dropped(t) + Packets(t, 5) }

  /** The update of the entry is a refill: six get through at one moment, where the limit is five. */
  lemma {:induction false} HeldBeatsLimit(t: nat)
    requires NSEC_PER_SEC < t < WORD
    ensures var evs := DroppedThenFive(t) + [Update(t, 0)];
            && Ordered(evs) && Possible(evs) && NoRefills(DroppedThenFive(t))
            && Refills(After(DroppedThenFive(t)), Update(t, 0)) && Through(evs, 1) == 6 && Limit(0) == 5
  {
    var evs := DroppedThenFive(t);
    FiveAfterDropped(t);
    StaleUpdate(After(evs), t);
    GrownOrdered(evs, Update(t, 0));
    GrownPossible(evs, Update(t, 0));
    Grown(evs, Update(t, 0), 1);
  }

  lemma {:induction false} FiveAfterDropped(t: nat)
    requires NSEC_PER_SEC < t < WORD
    ensures var (evs, s) := (DroppedThenFive(t), After(DroppedThenFive(t)));
            && Ordered(evs) && Possible(evs) && NoRefills(evs)
            && Through(evs, 1) == 5 && 0 in s.held && s.listed == [1] && At(s, 0) == Fresh(0)
  {
    DroppedAfter(t);
    BurstOrdered(Dropped(t), t, 5);
    PacketsHarmless(Dropped(t), Packets(t, 5));
    PriceIs(5);
    BurstPasses(Dropped(t), t, 5, 1);
    BurstLeaves(Dropped(t), t, 5);
  }

  lemma {:induction false} StaleUpdate(s: State, t: nat)
    requires 0 in s.held && s.listed == [1] && At(s, 0) == Fresh(0) && NSEC_PER_SEC < t
    ensures Refills(s, Update(t, 0)) && Next(s, Update(t, 0)).1
  {
  }

  lemma {:induction false} OneMore(evs: seq<Event>, ev: Event)
    requires Possible(evs) && NoRefills(evs) && CanHappen(After(evs), Waiting(evs), ev) && !Refills(After(evs), ev)
    ensures Possible(evs + [ev]) && NoRefills(evs + [ev]) && After(evs + [ev]) == Next(After(evs), ev).0
  {
    GrownPossible(evs, ev);
    GrownNoRefills(evs, ev);
    Grown(evs, ev, 0);
  }

  lemma {:induction false} AfterFirst()
    ensures var evs := [Packet(0, true)];
            Possible(evs) && NoRefills(evs) && After(evs) == State([Fresh(0)], [0], multiset{}) && Through(evs, 1) == 0
  {
    OneMore([], Packet(0, true));
    assert [] + [Packet(0, true)] == [Packet(0, true)];
  }

  lemma {:induction false} AfterFound(t: nat)
    ensures var evs := [Packet(0, true), Found(t, 0)];
            Possible(evs) && NoRefills(evs) && After(evs) == State([Fresh(0)], [0], multiset{0}) && Through(evs, 1) == 0
  {
    AfterFirst();
    OneMore([Packet(0, true)], Found(t, 0));
    Grown([Packet(0, true)], Found(t, 0), 1);
    assert [Packet(0, true)] + [Found(t, 0)] == [Packet(0, true), Found(t, 0)];
  }

  lemma {:induction false} FirstDropped(s: State, t: nat)
    requires s == State([Fresh(0)], [0], multiset{0}) && NSEC_PER_SEC < t < WORD
    ensures Next(s, Visit(t, t, 0)) == (State([Fresh(0)], [], multiset{0}), false) && !Refills(s, Visit(t, t, 0))
  {
    assert Expired(At(s, 0), t) && Without([0], 0) == [];
  }

  lemma {:induction false} DroppedAfter(t: nat)
    requires NSEC_PER_SEC < t < WORD
    ensures After(Dropped(t)) == State([Fresh(0)], [], multiset{0}) && Through(Dropped(t), 1) == 0
    ensures Possible(Dropped(t)) && NoRefills(Dropped(t))
  {
    var found := [Packet(0, true), Found(t, 0)];
    AfterFound(t);
    FirstDropped(After(found), t);
    OneMore(found, Visit(t, t, 0));
    Grown(found, Visit(t, t, 0), 1);
    assert found + [Visit(t, t, 0)] == Dropped(t);
  }

  /** Packets that find no entry leave those of before alone, and make an entry of their own the newest. */
  lemma {:induction false} BurstLeaves(evs: seq<Event>, t: nat, k: nat)
    requires k > 0 && After(evs).listed == []
    ensures var (s, s') := (After(evs), After(evs + Packets(t, k)));
            && s'.held == s.held && s'.listed == [|s.made|]
            && |s'.made| == |s.made| + 1 && s'.made[..|s.made|] == s.made
  {
    var h := evs + Packets(t, k - 1);
    assert evs + Packets(t, k) == h + [Packet(t, true)];
    Grown(h, Packet(t, true), 0);
    if k == 1 { assert h == evs; } else { BurstLeaves(evs, t, k - 1); }
  }
}
