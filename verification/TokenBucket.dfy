/**
 The handshake rate limit of one source: a token bucket kept in the newest entry of that source,
 and a collector that drops entries unused for a second.  Times are nanoseconds in 64-bit
 words, as the source subtracts them.
 */
module TokenBucket {
  import opened Maybe

  const NSEC_PER_SEC := 1_000_000_000
  const PACKETS_PER_SECOND := 20
  const PACKETS_BURSTABLE := 5
  const PACKET_COST := NSEC_PER_SEC / PACKETS_PER_SECOND
  const TOKEN_MAX := PACKET_COST * PACKETS_BURSTABLE
  const WORD := 0x1_0000_0000_0000_0000

  /** struct ratelimiter_entry */
  datatype Entry = Entry(last: nat, tokens: nat)

  function Min(a: nat, b: nat): nat { if a < b then a else b }

  /** a - b in unsigned 64-bit words */
  function Minus(a: nat, b: nat): nat
    requires a < WORD && b < WORD
  {
    if a >= b then a - b else a + WORD - b
  }

  /** The tokens at hand; the clock does not run backwards, so nothing is subtracted below zero. */
  function Tokens(e: Entry, now: nat): nat {
    Min(TOKEN_MAX, e.tokens + (if e.last <= now then now - e.last else 0))
  }

  /** A packet that finds the entry. */
  function Hit(e: Entry, now: nat): (Entry, bool) {
    var tokens := Tokens(e, now);
    (Entry(now, if tokens >= PACKET_COST then tokens - PACKET_COST else tokens), tokens >= PACKET_COST)
  }

  function Fresh(now: nat): Entry { Entry(now, TOKEN_MAX - PACKET_COST) }

  /** The collector's test, with the subtraction as the machine does it. */
  predicate Expired(e: Entry, began: nat) {
    began < WORD && e.last < WORD && Minus(began, e.last) > NSEC_PER_SEC
  }

  // ---------------------------------------------------------------- without interference

  predicate Rising(ts: seq<nat>) { |ts| <= 1 || (ts[0] <= ts[1] && Rising(ts[1..])) }

  function Allow(e: Option<Entry>, now: nat): (Entry, bool) {
    if e.Some? then Hit(e.value, now) else (Fresh(now), true)
  }

  /** A source's packets, one after the other, on what it has of an entry. */
  function Answers(e: Option<Entry>, ts: seq<nat>): (r: seq<bool>)
    ensures |r| == |ts|
    decreases |ts|
  {
    if ts == [] then [] else [Allow(e, ts[0]).1] + Answers(Some(Allow(e, ts[0]).0), ts[1..])
  }

  function Admitted(answers: seq<bool>): nat {
    if answers == [] then 0 else (if answers[0] then 1 else 0) + Admitted(answers[1..])
  }

  /** The tokens the packets let through have used up. */
  function Spent(answers: seq<bool>): nat {
    if answers == [] then 0 else (if answers[0] then PACKET_COST else 0) + Spent(answers[1..])
  }

  lemma {:induction false} SpentIs(answers: seq<bool>)
    ensures Spent(answers) == Admitted(answers) * PACKET_COST
  {
    if answers == [] {
    } else {
      SpentIs(answers[1..]);
    }
  }

  /** What a source may get through in a stretch of time: the burst, and one packet per packet cost. */
  function Limit(length: nat): nat { PACKETS_BURSTABLE + length / PACKET_COST }

  /** The packets let through between two moments are within the limit. */
  predicate Within(answers: seq<bool>, first: nat, last: nat) {
    first <= last && Admitted(answers) <= Limit(last - first)
  }

  /** What a source can spend at a moment. */
  function AtHand(e: Option<Entry>, now: nat): nat { if e.Some? then Tokens(e.value, now) else TOKEN_MAX }

  /** One packet: what it costs comes out of what is at hand. */
  lemma AllowSpends(e: Option<Entry>, now: nat)
    ensures var (e', ok) := Allow(e, now);
            e'.last == now && e'.tokens + (if ok then PACKET_COST else 0) == AtHand(e, now) <= TOKEN_MAX
  {
  }

  /** What the packets let through cost is covered by the tokens at hand and the time that passes. */
  lemma {:induction false} SpentBound(e: Option<Entry>, ts: seq<nat>)
    requires Rising(ts) && ts != []
    ensures Spent(Answers(e, ts)) <= AtHand(e, ts[0]) + ts[|ts| - 1] - ts[0] && ts[0] <= ts[|ts| - 1]
    decreases |ts|
  {
    AllowSpends(e, ts[0]);
    var (e', ok) := Allow(e, ts[0]);
    var rest := Answers(Some(e'), ts[1..]);
    assert Answers(e, ts) == [ok] + rest && ([ok] + rest)[1..] == rest;
    if |ts| > 1 { SpentBound(Some(e'), ts[1..]); }
  }

  /** What is left of the entry after the packets. */
  function EntryAfter(e: Option<Entry>, ts: seq<nat>): Option<Entry>
    decreases |ts|
  {
    if ts == [] then e else EntryAfter(Some(Allow(e, ts[0]).0), ts[1..])
  }

  lemma {:induction false} AnswersJoin(e: Option<Entry>, ts: seq<nat>, us: seq<nat>)
    ensures Answers(e, ts + us) == Answers(e, ts) + Answers(EntryAfter(e, ts), us)
    decreases |ts|
  {
    if ts == [] {
      assert ts + us == us;
    } else {
      assert (ts + us)[1..] == ts[1..] + us;
      AnswersJoin(Some(Allow(e, ts[0]).0), ts[1..], us);
    }
  }

  lemma {:induction false} RisingPart(ts: seq<nat>, i: nat, j: nat)
    requires Rising(ts) && i <= j <= |ts|
    ensures Rising(ts[i..j])
    decreases |ts|
  {
    if i > 0 {
      RisingPart(ts[1..], i - 1, j - 1);
      assert ts[1..][i - 1..j - 1] == ts[i..j];
    } else if j > 1 {
      RisingPart(ts[1..], 0, j - 1);
      assert ts[..j][1..] == ts[1..][..j - 1];
    }
  }

  /** In any stretch of packets at most five, and one more per packet cost of time, are let through. */
  lemma StretchBound(e: Option<Entry>, ts: seq<nat>)
    requires Rising(ts) && ts != []
    ensures Within(Answers(e, ts), ts[0], ts[|ts| - 1])
  {
    SpentBound(e, ts);
    SpentIs(Answers(e, ts));
    AllowSpends(e, ts[0]);
    DivideBound(Admitted(Answers(e, ts)), ts[|ts| - 1] - ts[0]);
  }

  lemma DivideBound(n: nat, l: nat)
    requires n * PACKET_COST <= TOKEN_MAX + l
    ensures n <= Limit(l)
  {
  }

  lemma Slices<T>(s: seq<T>, i: nat, j: nat)
    requires 0 < i <= j <= |s|
    ensures s[1..][i - 1..j - 1] == s[i..j] && s[..i][1..] == s[1..][..i - 1]
  {
  }

  lemma {:induction false} AnswersPart(e: Option<Entry>, ts: seq<nat>, i: nat, j: nat)
    requires i <= j <= |ts|
    ensures Answers(e, ts)[i..j] == Answers(EntryAfter(e, ts[..i]), ts[i..j])
    decreases |ts|
  {
    if i == 0 {
      AnswersJoin(e, ts[..j], ts[j..]);
      assert ts == ts[..j] + ts[j..] && ts[..0] == [];
    } else {
      var e' := Some(Allow(e, ts[0]).0);
      AnswersPart(e', ts[1..], i - 1, j - 1);
      Slices(ts, i, j);
      assert Answers(e, ts)[1..] == Answers(e', ts[1..]);
      Slices(Answers(e, ts), i, j);
    }
  }

  /** The same for the packets from index i to index j of a source that nothing interferes with. */
  lemma IntervalBound(ts: seq<nat>, i: nat, j: nat)
    requires Rising(ts) && i < j <= |ts|
    ensures Within(Answers(None, ts)[i..j], ts[i], ts[j - 1])
  {
    var part, e := ts[i..j], EntryAfter(None, ts[..i]);
    assert part[0] == ts[i] && part[|part| - 1] == ts[j - 1];
    RisingPart(ts, i, j);
    StretchBound(e, part);
    assert Answers(None, ts)[i..j] == Answers(e, part) by { AnswersPart(None, ts, i, j); }
  }

  // ---------------------------------------------------------------- the collector

  /** What the collector's test comes to: unused for more than a second, or used since the clock was read. */
  lemma ExpiredIs(e: Entry, began: nat)
    requires began < WORD && e.last < WORD
    ensures e.last <= began ==> (Expired(e, began) <==> began - e.last > NSEC_PER_SEC)
    ensures began < e.last && e.last - began < WORD - NSEC_PER_SEC ==> Expired(e, began)
  {
  }

  predicate From(ts: seq<nat>, now: nat) { Rising(ts) && (ts != [] ==> now <= ts[0]) }

  lemma FullMeansSame(e: Entry, ts: seq<nat>, now: nat)
    requires From(ts, now) && Tokens(e, now) == TOKEN_MAX && e.last <= now
    ensures Answers(Some(e), ts) == Answers(None, ts)
  {
    if ts != [] { assert Allow(Some(e), ts[0]) == (Fresh(ts[0]), true); }
  }

  function Burst(now: nat): seq<nat> { [now, now, now, now, now] }

  /** From nothing a whole burst gets through at one moment. */
  lemma BurstFromNothing(now: nat)
    ensures From(Burst(now), now) && Admitted(Answers(None, Burst(now))) == PACKETS_BURSTABLE
  {
    var e4, e3, e2 := Entry(now, 200_000_000), Entry(now, 150_000_000), Entry(now, 100_000_000);
    var e1, e0 := Entry(now, 50_000_000), Entry(now, 0);
    assert Allow(None, now) == (e4, true) && Allow(Some(e4), now) == (e3, true) && Allow(Some(e3), now) == (e2, true);
    assert Allow(Some(e2), now) == (e1, true) && Allow(Some(e1), now) == (e0, true);
    assert Burst(now)[1..] == [now, now, now, now] && [now, now, now, now][1..] == [now, now, now];
    assert [now, now, now][1..] == [now, now] && Rising([now, now]) && Rising([now, now, now]);
    assert Answers(Some(e1), [now]) == [true] && Answers(Some(e2), [now, now]) == [true, true];
    assert Answers(Some(e3), [now, now, now]) == [true, true, true];
    assert Answers(Some(e4), [now, now, now, now]) == [true, true, true, true];
    assert Answers(None, Burst(now)) == [true, true, true, true, true];
    assert Admitted([true, true]) == 2 && Admitted([true, true, true, true]) == 4;
  }

  /**
   Dropping an entry is invisible to every later sequence of packets exactly when its bucket
   has filled up by then.
   */
  lemma DropInvisibleIff(e: Entry, now: nat)
    requires e.last <= now
    ensures (forall ts :: From(ts, now) ==> Answers(Some(e), ts) == Answers(None, ts)) <==> Tokens(e, now) == TOKEN_MAX
  {
    if Tokens(e, now) == TOKEN_MAX {
      forall ts | From(ts, now) ensures Answers(Some(e), ts) == Answers(None, ts) { FullMeansSame(e, ts, now); }
    } else {
      NotFullShows(e, now);
    }
  }

  /** A burst tells a bucket that is not full from none. */
  lemma NotFullShows(e: Entry, now: nat)
    requires e.last <= now && Tokens(e, now) < TOKEN_MAX
    ensures From(Burst(now), now) && Answers(Some(e), Burst(now)) != Answers(None, Burst(now))
  {
    BurstFromNothing(now);
    FewerAtOnce(e, Burst(now), now);
  }

  /** At one moment a bucket that is not full lets fewer through than a burst. */
  lemma FewerAtOnce(e: Entry, ts: seq<nat>, now: nat)
    requires Rising(ts) && ts != [] && ts[0] == ts[|ts| - 1] == now && Tokens(e, now) < TOKEN_MAX
    ensures Admitted(Answers(Some(e), ts)) < PACKETS_BURSTABLE
  {
    SpentBound(Some(e), ts);
    SpentIs(Answers(Some(e), ts));
    UnderBurst(Admitted(Answers(Some(e), ts)), Spent(Answers(Some(e), ts)));
  }

  lemma UnderBurst(n: nat, spent: nat)
    requires spent == n * PACKET_COST && spent < TOKEN_MAX
    ensures n < PACKETS_BURSTABLE
  {
  }

  /** An entry dropped by a collector whose clock is not behind the entry has filled up. */
  lemma TimelyMeansFull(e: Entry, began: nat, now: nat)
    requires Expired(e, began) && e.last <= began <= now
    ensures Tokens(e, now) == TOKEN_MAX
  {
    ExpiredIs(e, began);
  }

  /**
   A collector whose clock reading is older than an entry's last use drops that entry, because the
   difference wraps around: an empty bucket is forgotten and the next packet gets through.
   */
  lemma StaleCollectorShows(began: nat)
    requires began < WORD - 1
    ensures var e := Entry(began + 1, 0);
            && Expired(e, began)
            && Answers(Some(e), [began + 1]) == [false] && Answers(None, [began + 1]) == [true]
  {
    var e := Entry(began + 1, 0);
    ExpiredIs(e, began);
    assert Allow(Some(e), began + 1).1 == false;
  }
}
