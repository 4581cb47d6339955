/**
 The entries of one source of the rate limiter as the steps of all its users see them.  An entry
 is found without a lock and updated under its own lock, while entries are linked and unlinked
 under the table's: a packet may update an entry that is no longer the newest, or no longer
 linked.  One event at a time is looked at here; TokenHistory takes whole histories.
 */
module TokenSource {
  import opened TokenBucket

  /**
   The entries ever made, by number; the numbers of those in the chain, newest first; the entries
   that packets have found and not updated yet.
   */
  datatype State = State(made: seq<Entry>, listed: seq<nat>, held: multiset<nat>)

  /**
   What can happen: a packet is looked up and, if there is no entry and there is room, gets one,
   all without interference; a packet finds no entry and sets off to add one; such a packet links
   its entry, which it stamped before, and is let through; a packet finds the entry at an index of
   the chain; a packet updates the entry it found; the collector, with the time it read when it
   set out, visits the entry at an index of the chain.
   */
  datatype Event =
    | Packet(now: nat, room: bool)
    | Miss(now: nat)
    | Late(now: nat, stamped: nat)
    | Found(now: nat, at: nat)
    | Update(now: nat, id: nat)
    | Visit(now: nat, began: nat, at: nat)

  function Added(s: State, e: Entry): State { s.(made := s.made + [e], listed := [|s.made|] + s.listed) }

  /** Entry number id; there is no other that anyone could find. */
  function At(s: State, id: nat): Entry { if id < |s.made| then s.made[id] else Entry(0, 0) }

  function Updated(s: State, id: nat, now: nat): (State, bool) {
    var (e, ok) := Hit(At(s, id), now);
    (if id < |s.made| then s.(made := s.made[id := e]) else s, ok)
  }

  predicate IsNewest(s: State, id: nat) { s.listed != [] && s.listed[0] == id }

  predicate Bounded(s: State) { forall i :: 0 <= i < |s.listed| ==> s.listed[i] < |s.made| }

  predicate Distinct(s: State) { forall i, j :: 0 <= i < j < |s.listed| ==> s.listed[i] != s.listed[j] }

  predicate Ok(s: State) { Bounded(s) && Distinct(s) && forall id :: id in s.held ==> id < |s.made| }

  function Without(listed: seq<nat>, at: nat): seq<nat>
    requires at < |listed|
  {
    listed[..at] + listed[at + 1..]
  }

  /** What a visit leaves of the entries listed. */
  function Visited(s: State, listed: seq<nat>, began: nat, at: nat): seq<nat>
    requires at < |listed|
  {
    if Expired(At(s, listed[at]), began) then Without(listed, at) else listed
  }

  /** The state after an event, and whether a packet was let through. */
  function Next(s: State, ev: Event): (State, bool) {
    match ev
    case Packet(now, room) =>
      if s.listed != [] then Updated(s, s.listed[0], now)
      else if room then (Added(s, Fresh(now)), true)
      else (s, false)
    case Miss(_) => (s, false)
    case Late(_, stamped) => (Added(s, Fresh(stamped)), true)
    case Found(_, at) =>
      (if at < |s.listed| then s.(held := s.held + multiset{s.listed[at]}) else s, false)
    case Update(now, id) =>
      if id in s.held then Updated(s.(held := s.held - multiset{id}), id, now) else (s, false)
    case Visit(_, began, at) =>
      (if at < |s.listed| then s.(listed := Visited(s, s.listed, began, at)) else s, false)
  }

  /** An entry is stamped before it is linked, and a collector comes by after it set out. */
  predicate Sane(ev: Event) { (ev.Late? ==> ev.stamped <= ev.now) && (ev.Visit? ==> ev.began <= ev.now) }

  /** What the next packet can spend. */
  function AtHandOf(s: State, now: nat): nat {
    if s.listed == [] then TOKEN_MAX else Tokens(At(s, s.listed[0]), now)
  }

  function Cost(ok: bool): nat { if ok then PACKET_COST else 0 }

  predicate LastBefore(s: State, now: nat) { forall i :: 0 <= i < |s.made| ==> s.made[i].last <= now }

  /**
   The branches that can go wrong: an entry linked before one that is not full, or later than it
   was stamped; an entry that is not full dropped by a collector that set out before its last use;
   a packet let through by an entry that is no longer the newest, or no longer linked.
   */
  predicate Refills(s: State, ev: Event) {
    match ev
    case Packet(_, _) => false
    case Miss(_) => false
    case Late(now, stamped) => AtHandOf(s, now) < TOKEN_MAX || stamped < now
    case Found(_, _) => false
    case Update(now, id) => id in s.held && !IsNewest(s, id) && Tokens(At(s, id), now) >= PACKET_COST
    case Visit(now, began, at) =>
      && at == 0 && s.listed != [] && AtHandOf(s, now) < TOKEN_MAX
      && Expired(At(s, s.listed[0]), began) && began < At(s, s.listed[0]).last
  }

  /** What an event can give away on top of a full bucket: the delay of a late entry, or a packet. */
  function Extra(s: State, ev: Event): nat {
    match ev
    case Late(now, stamped) => if stamped < now then Min(PACKET_COST, now - stamped) else 0
    case Update(_, _) => if Refills(s, ev) then PACKET_COST else 0
    case _ => 0
  }

  /** What a refill can give away: a bucket unless it only lets one packet through. */
  function Gift(s: State, ev: Event): nat {
    Extra(s, ev) + if Refills(s, ev) && !ev.Update? then TOKEN_MAX else 0
  }

  lemma NoGift(s: State, ev: Event)
    requires !Refills(s, ev)
    ensures Gift(s, ev) == 0 && Extra(s, ev) == 0
  {
  }

  lemma AddedOk(s: State, e: Entry)
    requires Ok(s)
    ensures Ok(Added(s, e))
  {
  }

  lemma WithoutOk(s: State, at: nat)
    requires Ok(s) && at < |s.listed|
    ensures Ok(s.(listed := Without(s.listed, at)))
  {
    var l := Without(s.listed, at);
    assert forall i :: 0 <= i < |l| ==> l[i] == s.listed[if i < at then i else i + 1];
  }

  lemma NextOk(s: State, ev: Event)
    requires Ok(s)
    ensures Ok(Next(s, ev).0)
  {
    match ev
    case Packet(now, _) => AddedOk(s, Fresh(now));
    case Miss(_) =>
    case Late(_, stamped) => AddedOk(s, Fresh(stamped));
    case Found(_, _) =>
    case Update(_, _) =>
    case Visit(_, _, at) => if at < |s.listed| { WithoutOk(s, at); }
  }

  lemma NextLast(s: State, ev: Event)
    requires Ok(s) && LastBefore(s, ev.now) && Sane(ev)
    ensures Ok(Next(s, ev).0) && LastBefore(Next(s, ev).0, ev.now)
  {
    NextOk(s, ev);
  }

  /** A packet on the newest entry pays with what is at hand. */
  lemma NewestPays(s: State, now: nat)
    requires Ok(s) && s.listed != []
    ensures var (s', ok) := Updated(s, s.listed[0], now);
            Ok(s') && ok == (AtHandOf(s, now) >= PACKET_COST) && Cost(ok) + AtHandOf(s', now) == AtHandOf(s, now)
  {
  }

  /** An update of any other entry leaves what is at hand alone. */
  lemma OtherPays(s: State, id: nat, now: nat)
    requires Ok(s) && id < |s.made| && !IsNewest(s, id)
    ensures Ok(Updated(s, id, now).0) && AtHandOf(Updated(s, id, now).0, now) == AtHandOf(s, now)
    ensures Updated(s, id, now).1 == (Tokens(At(s, id), now) >= PACKET_COST)
  {
  }

  /** The newest entry, when it is dropped, is full, unless dropping it is a refill. */
  lemma DroppedIsFull(s: State, ev: Event)
    requires Ok(s) && LastBefore(s, ev.now) && Sane(ev) && !Refills(s, ev)
    requires ev.Visit? && ev.at == 0 && s.listed != [] && Expired(At(s, s.listed[0]), ev.began)
    ensures AtHandOf(s, ev.now) == TOKEN_MAX
  {
    var e := At(s, s.listed[0]);
    if e.last <= ev.began { TimelyMeansFull(e, ev.began, ev.now); }
  }

  /** A packet on the entry it found pays, unless that is not the newest entry any more. */
  lemma UpdatePays(s: State, now: nat, id: nat)
    requires Ok(s) && id in s.held
    ensures var (s', ok) := Next(s, Update(now, id));
            Ok(s') && Cost(ok) + AtHandOf(s', now) == AtHandOf(s, now) + Extra(s, Update(now, id))
  {
    var s' := s.(held := s.held - multiset{id});
    if IsNewest(s, id) { NewestPays(s', now); } else { OtherPays(s', id, now); }
  }

  lemma VisitPays(s: State, ev: Event)
    requires Ok(s) && LastBefore(s, ev.now) && Sane(ev) && ev.Visit?
    ensures Ok(Next(s, ev).0)
    ensures AtHandOf(Next(s, ev).0, ev.now) <= AtHandOf(s, ev.now) + Gift(s, ev)
  {
    NextOk(s, ev);
    if ev.at == 0 && s.listed != [] && Expired(At(s, s.listed[0]), ev.began) && !Refills(s, ev) {
      DroppedIsFull(s, ev);
    }
  }

  /** One event: what gets through comes out of what is at hand and what the event gives away. */
  lemma NextPays(s: State, ev: Event)
    requires Ok(s) && LastBefore(s, ev.now) && Sane(ev)
    ensures Ok(Next(s, ev).0)
    ensures Cost(Next(s, ev).1) + AtHandOf(Next(s, ev).0, ev.now) <= TOKEN_MAX + Extra(s, ev)
    ensures Cost(Next(s, ev).1) + AtHandOf(Next(s, ev).0, ev.now) <= AtHandOf(s, ev.now) + Gift(s, ev)
  {
    NextOk(s, ev);
    match ev
    case Packet(now, _) => if s.listed != [] { NewestPays(s, now); }
    case Miss(_) =>
    case Late(_, _) =>
    case Found(_, _) =>
    case Update(now, id) => if id in s.held { UpdatePays(s, now, id); }
    case Visit(_, _, _) => VisitPays(s, ev);
  }

  lemma AtHandGrows(s: State, now: nat, t: nat)
    requires Ok(s) && now <= t && LastBefore(s, now)
    ensures AtHandOf(s, t) == Min(TOKEN_MAX, AtHandOf(s, now) + (t - now))
  {
  }

  // ---------------------------------------------------------------- as long as nothing was refilled

  /** Every entry but the newest is full: those behind it, and those that are not linked any more. */
  predicate OthersFull(s: State, now: nat) {
    forall id :: 0 <= id < |s.made| && !IsNewest(s, id) ==> Tokens(s.made[id], now) == TOKEN_MAX
  }

  lemma OthersStayFull(s: State, now: nat, t: nat)
    requires OthersFull(s, now) && now <= t
    ensures OthersFull(s, t)
  {
  }

  lemma NextOthersFull(s: State, ev: Event)
    requires Ok(s) && LastBefore(s, ev.now) && Sane(ev) && OthersFull(s, ev.now) && !Refills(s, ev)
    ensures OthersFull(Next(s, ev).0, ev.now)
  {
    match ev
    case Packet(_, _) =>
    case Miss(_) =>
    case Late(_, _) =>
    case Found(_, _) =>
    case Update(_, _) =>
    case Visit(_, began, at) =>
      if at == 0 && s.listed != [] && Expired(At(s, s.listed[0]), began) { DroppedIsFull(s, ev); }
  }

  /** An event that refills nothing changes what is at hand by exactly what is let through. */
  lemma NextExact(s: State, ev: Event)
    requires Ok(s) && LastBefore(s, ev.now) && Sane(ev) && OthersFull(s, ev.now) && !Refills(s, ev)
    ensures Ok(Next(s, ev).0)
    ensures Cost(Next(s, ev).1) + AtHandOf(Next(s, ev).0, ev.now) == AtHandOf(s, ev.now)
  {
    NextOk(s, ev);
    match ev
    case Packet(now, _) => if s.listed != [] { NewestPays(s, now); }
    case Miss(_) =>
    case Late(_, _) =>
    case Found(_, _) =>
    case Update(now, id) => if id in s.held { UpdatePays(s, now, id); }
    case Visit(_, began, at) =>
      if at == 0 && s.listed != [] && Expired(At(s, s.listed[0]), began) {
        DroppedIsFull(s, ev);
        NextOthersFull(s, ev);
        NewlyFirst(s, ev.now);
      }
  }

  /** What comes to the front when the newest entry goes is full, or nothing. */
  lemma NewlyFirst(s: State, now: nat)
    requires Ok(s) && s.listed != [] && OthersFull(s, now)
    ensures var s' := s.(listed := Without(s.listed, 0)); Ok(s') && AtHandOf(s', now) == TOKEN_MAX
  {
    WithoutOk(s, 0);
    if |s.listed| > 1 { assert !IsNewest(s, s.listed[1]); }
  }

  /** A refill leaves more at hand than there was, or lets a packet through for nothing. */
  lemma RefillExceeds(s: State, ev: Event)
    requires Ok(s) && LastBefore(s, ev.now) && Sane(ev) && OthersFull(s, ev.now) && Refills(s, ev)
    ensures Ok(Next(s, ev).0)
    ensures Cost(Next(s, ev).1) + AtHandOf(Next(s, ev).0, ev.now) > AtHandOf(s, ev.now)
  {
    NextOk(s, ev);
    match ev
    case Late(_, _) =>
    case Update(now, id) => OtherPays(s.(held := s.held - multiset{id}), id, now);
    case Visit(_, _, _) => NewlyFirst(s, ev.now);
  }

  // ---------------------------------------------------------------- a whole pass of the collector

  function KeptOf(s: State, id: nat, began: nat): seq<nat> { if Expired(At(s, id), began) then [] else [id] }

  /** The entries among those listed that a pass of the collector keeps. */
  function Unexpired(s: State, listed: seq<nat>, began: nat): seq<nat> {
    if listed == [] then [] else KeptOf(s, listed[0], began) + Unexpired(s, listed[1..], began)
  }

  /** What visits to the first n entries leave, from the last of them to the first. */
  function AfterPass(s: State, listed: seq<nat>, began: nat, n: nat): seq<nat>
    requires n <= |listed|
    decreases n
  {
    if n == 0 then listed else AfterPass(s, Visited(s, listed, began, n - 1), began, n - 1)
  }

  lemma {:induction false} UnexpiredJoin(s: State, listed: seq<nat>, id: nat, began: nat)
    ensures Unexpired(s, listed + [id], began) == Unexpired(s, listed, began) + KeptOf(s, id, began)
  {
    if listed == [] {
      assert listed + [id] == [id] && [id][1..] == [];
    } else {
      assert (listed + [id])[1..] == listed[1..] + [id];
      UnexpiredJoin(s, listed[1..], id, began);
    }
  }

  lemma VisitedIs(s: State, listed: seq<nat>, began: nat, at: nat)
    requires at < |listed|
    ensures var l := Visited(s, listed, began, at);
            at <= |l| && l[..at] == listed[..at] && l[at..] == KeptOf(s, listed[at], began) + listed[at + 1..]
  {
  }

  lemma PassJoin(s: State, listed: seq<nat>, began: nat, n: nat)
    requires n < |listed|
    ensures Unexpired(s, listed[..n], began) + (KeptOf(s, listed[n], began) + listed[n + 1..])
            == Unexpired(s, listed[..n + 1], began) + listed[n + 1..]
  {
    UnexpiredJoin(s, listed[..n], listed[n], began);
    assert listed[..n + 1] == listed[..n] + [listed[n]];
  }

  /** A pass over the first n entries that nothing interferes with drops the expired among them and no other. */
  lemma {:induction false} PassIs(s: State, listed: seq<nat>, began: nat, n: nat)
    requires n <= |listed|
    ensures AfterPass(s, listed, began, n) == Unexpired(s, listed[..n], began) + listed[n..]
    decreases n
  {
    if n == 0 {
      assert [] + listed[0..] == listed;
    } else {
      var l := Visited(s, listed, began, n - 1);
      VisitedIs(s, listed, began, n - 1);
      PassIs(s, l, began, n - 1);
      PassJoin(s, listed, began, n - 1);
      assert AfterPass(s, listed, began, n) == AfterPass(s, l, began, n - 1);
    }
  }
}
