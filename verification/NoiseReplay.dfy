/**
 Handshake messages are consumed by any number of workers at once.  Consuming an initiation tests
 its timestamp under one lock section and takes the initiation under another, and the second
 section compares the timestamp again only to decide whether to store it.  The steps here are the
 lock sections, together with everything else that writes a handshake; a worker between its two
 sections holds what it has read.
 */
module NoiseReplay {
  import opened Maybe
  import opened NoiseHandshake

  datatype Device = Device(c: Crypto, me: Option<Identity>)

  /** What a worker carries from its first section to its second. */
  datatype Held = Initiated(m: Initiation, reading: Reading) | Answered(peer: Bytes, m2: Response, sym: Sym)

  /** An initiation that was consumed. */
  datatype Taken = Taken(m: Initiation, peer: Bytes, timestamp: Bytes)

  datatype State = State(peers: map<Bytes, Handshake>, held: map<nat, Held>, taken: seq<Taken>)

  datatype Step =
    | Check(w: nat, m: Initiation, now: int)
    | Commit(w: nat, now: int)
    | CheckAnswer(w: nat, peer: Bytes, m2: Response)
    | CommitAnswer(w: nat)
    | Initiate(peer: Bytes, secret: Bytes, timestamp: Bytes, index: nat)
    | Respond(peer: Bytes, secret: Bytes, index: nat)
    | Begin(peer: Bytes, created: bool, dead: bool)
    | Clear(peer: Bytes)

  predicate Enabled(s: State, step: Step) {
    match step
    case Check(w, _, _) => w !in s.held
    case Commit(w, _) => w in s.held && s.held[w].Initiated? && s.held[w].reading.peer in s.peers
    case CheckAnswer(w, peer, _) => w !in s.held && peer in s.peers
    case CommitAnswer(w) => w in s.held && s.held[w].Answered? && s.held[w].peer in s.peers
    case Initiate(peer, _, _, _) => peer in s.peers
    case Respond(peer, _, _) => peer in s.peers
    case Begin(peer, _, _) => peer in s.peers
    case Clear(peer) => peer in s.peers
  }

  /** The first section, for a worker that has read r out of the initiation. */
  function Checked(s: State, w: nat, m: Initiation, r: Option<Reading>, now: int): State
    requires r.Some? ==> r.value.peer in s.peers
  {
    if r.Some? && Passes(s.peers[r.value.peer], r.value.timestamp, now)
    then s.(held := s.held[w := Initiated(m, r.value)]) else s
  }

  function CommitStep(s: State, w: nat, now: int): State
    requires Enabled(s, Commit(w, now))
  {
    var m, r := s.held[w].m, s.held[w].reading;
    State(s.peers[r.peer := Committed(s.peers[r.peer], m, r, now)], s.held - {w},
          s.taken + [Taken(m, r.peer, r.timestamp)])
  }

  /** The steps that write a handshake without consuming an initiation. */
  function Rewritten(d: Device, s: State, step: Step): State
    requires Enabled(s, step) && !step.Check? && !step.Commit?
  {
    match step
    case CheckAnswer(w, peer, m2) =>
      var sym := ReadResponse(d.c, d.me, s.peers[peer], m2);
      if sym.None? then s else s.(held := s.held[w := Answered(peer, m2, sym.value)])
    case CommitAnswer(w) =>
      var x := s.held[w];
      var h := CommitResponse(s.peers[x.peer], x.m2, x.sym);
      State(if h.None? then s.peers else s.peers[x.peer := h.value], s.held - {w}, s.taken)
    case Initiate(peer, secret, timestamp, index) =>
      s.(peers := s.peers[peer := CreateInitiation(d.c, d.me, s.peers[peer], secret, timestamp, index).1])
    case Respond(peer, secret, index) =>
      s.(peers := s.peers[peer := CreateResponse(d.c, s.peers[peer], secret, index).1])
    case Begin(peer, created, dead) =>
      s.(peers := s.peers[peer := BeginSession(d.c, s.peers[peer], created, dead).1])
    case Clear(peer) => s.(peers := s.peers[peer := Zero(s.peers[peer])])
  }

  function Apply(d: Device, s: State, step: Step): State
    requires Enabled(s, step)
  {
    match step
    case Check(w, m, now) => Checked(s, w, m, ReadInitiation(d.c, d.me, s.peers, m), now)
    case Commit(w, now) => CommitStep(s, w, now)
    case _ => Rewritten(d, s, step)
  }

  predicate Init(s: State) { s.held == map[] && s.taken == [] }

  ghost predicate IsStep(d: Device, trace: seq<State>, steps: seq<Step>, i: nat)
    requires i < |steps| && |trace| == |steps| + 1
  {
    Enabled(trace[i], steps[i]) && trace[i + 1] == Apply(d, trace[i], steps[i])
  }

  ghost predicate IsRun(d: Device, trace: seq<State>, steps: seq<Step>) {
    && |trace| == |steps| + 1
    && Init(trace[0])
    && forall i :: 0 <= i < |steps| ==> IsStep(d, trace, steps, i)
  }

  // ---------------------------------------------------------------- the invariant

  /** Nothing but the fields a message reads has to stay: the peers and their static secrets. */
  predicate SameKeys(p0: map<Bytes, Handshake>, p: map<Bytes, Handshake>) {
    p.Keys == p0.Keys && forall k :: k in p ==> p[k].staticStatic == p0[k].staticStatic
  }

  predicate LatestOk(p0: map<Bytes, Handshake>, p: map<Bytes, Handshake>, taken: seq<Taken>)
    requires p.Keys == p0.Keys
  {
    && (forall k :: k in p ==> !Less(p[k].latest, p0[k].latest))
    && (forall i :: 0 <= i < |taken| ==> taken[i].peer in p && !Less(p[taken[i].peer].latest, taken[i].timestamp))
    && (forall k :: k in p ==> p[k].latest == p0[k].latest || Seen(taken, k, p[k].latest))
  }

  /** The timestamp is one that was consumed from the peer. */
  predicate Seen(taken: seq<Taken>, peer: Bytes, timestamp: Bytes) {
    exists i :: 0 <= i < |taken| && taken[i].peer == peer && taken[i].timestamp == timestamp
  }

  /** What an initiation reads as; this depends on nothing that the steps change. */
  type Reader = Initiation -> Option<Reading>

  function ReaderOf(d: Device, p0: map<Bytes, Handshake>): Reader { m => ReadInitiation(d.c, d.me, p0, m) }

  /** Whatever is held or taken was read out of its initiation, and is later than what the run began with. */
  predicate Genuine(reader: Reader, p0: map<Bytes, Handshake>, m: Initiation, peer: Bytes, timestamp: Bytes) {
    && reader(m).Some? && reader(m).value.peer == peer && reader(m).value.timestamp == timestamp
    && peer in p0 && Less(p0[peer].latest, timestamp)
  }

  predicate ReadOk(reader: Reader, p0: map<Bytes, Handshake>, held: map<nat, Held>, taken: seq<Taken>) {
    && (forall w :: w in held && held[w].Initiated? ==>
          Genuine(reader, p0, held[w].m, held[w].reading.peer, held[w].reading.timestamp))
    && (forall i :: 0 <= i < |taken| ==> Genuine(reader, p0, taken[i].m, taken[i].peer, taken[i].timestamp))
  }

  predicate Inv(reader: Reader, p0: map<Bytes, Handshake>, s: State) {
    && SameKeys(p0, s.peers) && LatestOk(p0, s.peers, s.taken) && ReadOk(reader, p0, s.held, s.taken)
  }

  lemma ReadSame(d: Device, p0: map<Bytes, Handshake>, p: map<Bytes, Handshake>, m: Initiation)
    requires SameKeys(p0, p)
    ensures ReadInitiation(d.c, d.me, p, m) == ReaderOf(d, p0)(m)
  {
  }

  lemma CheckedOk(reader: Reader, p0: map<Bytes, Handshake>, s: State, w: nat, m: Initiation, now: int)
    requires Inv(reader, p0, s) && w !in s.held && (reader(m).Some? ==> reader(m).value.peer in s.peers)
    ensures Inv(reader, p0, Checked(s, w, m, reader(m), now))
  {
    var r := reader(m);
    if r.Some? && Passes(s.peers[r.value.peer], r.value.timestamp, now) {
      NotEarlier(p0[r.value.peer].latest, s.peers[r.value.peer].latest, r.value.timestamp);
    }
  }

  /** What is later than something not earlier than a is later than a. */
  lemma NotEarlier(a: Bytes, b: Bytes, c: Bytes)
    requires !Less(b, a) && Less(b, c)
    ensures Less(a, c)
  {
    LessTotal(a, b);
    if a != b { LessTransitive(a, b, c); }
  }

  lemma LatestGrows(latest: Bytes, timestamp: Bytes, a: Bytes)
    requires !Less(latest, a)
    ensures !Less(if Less(latest, timestamp) then timestamp else latest, a)
  {
    if Less(latest, timestamp) && Less(timestamp, a) { LessTransitive(latest, timestamp, a); }
  }

  lemma CommitLatest(p0: map<Bytes, Handshake>, s: State, w: nat, now: int)
    requires SameKeys(p0, s.peers) && LatestOk(p0, s.peers, s.taken) && Enabled(s, Commit(w, now))
    ensures SameKeys(p0, CommitStep(s, w, now).peers)
    ensures LatestOk(p0, CommitStep(s, w, now).peers, CommitStep(s, w, now).taken)
  {
    var s' := CommitStep(s, w, now);
    var r, n := s.held[w].reading, |s.taken|;
    var latest := s.peers[r.peer].latest;
    assert s'.taken[n] == Taken(s.held[w].m, r.peer, r.timestamp);
    LatestGrows(latest, r.timestamp, p0[r.peer].latest);
    LessIrreflexive(r.timestamp);
    forall i | 0 <= i < |s'.taken|
      ensures s'.taken[i].peer in s'.peers && !Less(s'.peers[s'.taken[i].peer].latest, s'.taken[i].timestamp)
    {
      if i < n {
        assert s'.taken[i] == s.taken[i];
        if s.taken[i].peer == r.peer { LatestGrows(latest, r.timestamp, s.taken[i].timestamp); }
      }
    }
    forall k | k in s'.peers
      ensures s'.peers[k].latest == p0[k].latest || Seen(s'.taken, k, s'.peers[k].latest)
    {
      if s'.peers[k].latest == s.peers[k].latest && s.peers[k].latest != p0[k].latest {
        var i :| 0 <= i < n && s.taken[i].peer == k && s.taken[i].timestamp == s.peers[k].latest;
        assert s'.taken[i] == s.taken[i];
      }
    }
  }

  lemma CommitRead(reader: Reader, p0: map<Bytes, Handshake>, s: State, w: nat, now: int)
    requires ReadOk(reader, p0, s.held, s.taken) && Enabled(s, Commit(w, now))
    ensures ReadOk(reader, p0, CommitStep(s, w, now).held, CommitStep(s, w, now).taken)
  {
  }

  /** Everything else that writes a handshake leaves its static secret and its latest timestamp alone. */
  lemma RewrittenKeeps(d: Device, s: State, step: Step)
    requires Enabled(s, step) && !step.Check? && !step.Commit?
    ensures var s' := Rewritten(d, s, step);
            && s'.peers.Keys == s.peers.Keys && s'.taken == s.taken
            && (forall k :: k in s.peers ==> s'.peers[k].latest == s.peers[k].latest)
            && (forall k :: k in s.peers ==> s'.peers[k].staticStatic == s.peers[k].staticStatic)
            && (forall k :: k in s.peers ==> s'.peers[k].lastConsumption == s.peers[k].lastConsumption)
            && (forall w :: w in s'.held && s'.held[w].Initiated? ==> w in s.held && s'.held[w] == s.held[w])
  {
    match step
    case CheckAnswer(_, _, _) =>
    case CommitAnswer(_) =>
    case Initiate(_, _, _, _) =>
    case Respond(_, _, _) =>
    case Begin(_, _, _) =>
    case Clear(_) =>
  }

  lemma RewrittenOk(d: Device, reader: Reader, p0: map<Bytes, Handshake>, s: State, step: Step)
    requires Inv(reader, p0, s) && Enabled(s, step) && !step.Check? && !step.Commit?
    ensures Inv(reader, p0, Rewritten(d, s, step))
  {
    RewrittenKeeps(d, s, step);
  }

  lemma StepOk(d: Device, p0: map<Bytes, Handshake>, s: State, step: Step)
    requires Inv(ReaderOf(d, p0), p0, s) && Enabled(s, step)
    ensures Inv(ReaderOf(d, p0), p0, Apply(d, s, step))
  {
    if step.Check? {
      ReadSame(d, p0, s.peers, step.m);
      CheckedOk(ReaderOf(d, p0), p0, s, step.w, step.m, step.now);
    } else if step.Commit? {
      CommitLatest(p0, s, step.w, step.now);
      CommitRead(ReaderOf(d, p0), p0, s, step.w, step.now);
    } else {
      RewrittenOk(d, ReaderOf(d, p0), p0, s, step);
    }
  }

  lemma {:induction false} RunInv(d: Device, trace: seq<State>, steps: seq<Step>, i: nat)
    requires IsRun(d, trace, steps) && i < |trace|
    ensures Inv(ReaderOf(d, trace[0].peers), trace[0].peers, trace[i])
  {
    if i == 0 {
      forall k | k in trace[0].peers
        ensures !Less(trace[0].peers[k].latest, trace[0].peers[k].latest)
      {
        LessIrreflexive(trace[0].peers[k].latest);
      }
    } else {
      RunInv(d, trace, steps, i - 1);
      assert IsStep(d, trace, steps, i - 1);
      StepOk(d, trace[0].peers, trace[i - 1], steps[i - 1]);
    }
  }

  // ---------------------------------------------------------------- consuming twice

  /** Step k takes initiation m. */
  predicate Consumes(trace: seq<State>, steps: seq<Step>, k: nat, m: Initiation)
    requires |trace| == |steps| + 1
  {
    && k < |steps| && steps[k].Commit? && steps[k].w in trace[k].held
    && trace[k].held[steps[k].w].Initiated? && trace[k].held[steps[k].w].m == m
  }

  /** The peer of the initiation that step k takes. */
  function PeerOf(trace: seq<State>, steps: seq<Step>, k: nat, m: Initiation): Bytes
    requires |trace| == |steps| + 1 && Consumes(trace, steps, k, m)
  {
    trace[k].held[steps[k].w].reading.peer
  }

  /** Step k falls between the check and the commit of the worker of step j. */
  predicate Overlaps(trace: seq<State>, steps: seq<Step>, k: nat, j: nat)
    requires |trace| == |steps| + 1
  {
    k < j < |steps| && steps[j].Commit? && forall x :: k <= x <= j ==> steps[j].w in trace[x].held
  }

  lemma {:induction false} TakenStays(d: Device, trace: seq<State>, steps: seq<Step>, i: nat, j: nat, x: Taken)
    requires IsRun(d, trace, steps) && i <= j < |trace| && x in trace[i].taken
    ensures x in trace[j].taken
    decreases j - i
  {
    if i < j {
      TakenStays(d, trace, steps, i, j - 1, x);
      assert IsStep(d, trace, steps, j - 1);
      TakenStep(d, trace[j - 1], steps[j - 1], x);
    }
  }

  lemma TakenBounds(d: Device, trace: seq<State>, steps: seq<Step>, i: nat, j: nat, x: Taken)
    requires IsRun(d, trace, steps) && i <= j < |trace| && x in trace[i].taken
    ensures x.peer in trace[j].peers && !Less(trace[j].peers[x.peer].latest, x.timestamp)
  {
    TakenStays(d, trace, steps, i, j, x);
    RunInv(d, trace, steps, j);
  }

  lemma TakenStep(d: Device, s: State, step: Step, x: Taken)
    requires Enabled(s, step) && x in s.taken
    ensures x in Apply(d, s, step).taken
  {
    if !step.Check? && !step.Commit? { RewrittenKeeps(d, s, step); }
  }

  /** What a worker holds it has held since its check, and what it checked was later than all that was taken by then. */
  lemma {:induction false} HeldSince(d: Device, trace: seq<State>, steps: seq<Step>, j: nat, w: nat) returns (i: nat)
    requires IsRun(d, trace, steps) && j < |trace| && w in trace[j].held && trace[j].held[w].Initiated?
    ensures i < j && forall x :: i < x <= j ==> w in trace[x].held && trace[x].held[w] == trace[j].held[w]
    ensures steps[i].Check? && steps[i].m == trace[j].held[w].m
    ensures var r := trace[j].held[w].reading;
            r.peer in trace[i].peers && Passes(trace[i].peers[r.peer], r.timestamp, steps[i].now)
    ensures steps[i].w == w
  {
    assert j > 0;
    assert IsStep(d, trace, steps, j - 1);
    if w in trace[j - 1].held && trace[j - 1].held[w] == trace[j].held[w] {
      i := HeldSince(d, trace, steps, j - 1, w);
    } else {
      i := j - 1;
      if !steps[i].Check? && !steps[i].Commit? { RewrittenKeeps(d, trace[i], steps[i]); }
    }
  }

  /** An initiation that was taken by step k is held at step j only by a worker that held it already at step k. */
  lemma TakenBefore(d: Device, trace: seq<State>, steps: seq<Step>, k: nat, j: nat, m: Initiation)
    requires IsRun(d, trace, steps) && k < j && Consumes(trace, steps, k, m) && Consumes(trace, steps, j, m)
    ensures Overlaps(trace, steps, k, j)
    ensures PeerOf(trace, steps, k, m) == PeerOf(trace, steps, j, m)
  {
    var w := steps[j].w;
    var i := HeldSince(d, trace, steps, j, w);
    RunInv(d, trace, steps, k);
    RunInv(d, trace, steps, j);
    var r := trace[j].held[w].reading;
    var q := trace[k].held[steps[k].w].reading;
    assert q.peer == r.peer && q.timestamp == r.timestamp;
    assert IsStep(d, trace, steps, k);
    var x := Taken(m, r.peer, r.timestamp);
    assert x == trace[k + 1].taken[|trace[k].taken|];
    if k < i { TakenBounds(d, trace, steps, k + 1, i, x); }
  }

  /** Exactly when the initiation taken by step j was taken before: one of its takers came in between its check and
      its commit. */
  lemma ReplayIff(d: Device, trace: seq<State>, steps: seq<Step>, j: nat, m: Initiation)
    requires IsRun(d, trace, steps) && Consumes(trace, steps, j, m)
    ensures (exists k :: 0 <= k < j && Consumes(trace, steps, k, m))
            <==> exists k :: 0 <= k < j && Consumes(trace, steps, k, m) && Overlaps(trace, steps, k, j)
  {
    if k :| 0 <= k < j && Consumes(trace, steps, k, m) {
      TakenBefore(d, trace, steps, k, j, m);
    }
  }

  /** No commit for a peer falls between the check and the commit of another initiation of that peer. */
  ghost predicate Serialised(trace: seq<State>, steps: seq<Step>)
    requires |trace| == |steps| + 1
  {
    forall k, j, m, m' ::
      (k < j && Consumes(trace, steps, k, m) && Consumes(trace, steps, j, m')
       && PeerOf(trace, steps, k, m) == PeerOf(trace, steps, j, m')) ==> !Overlaps(trace, steps, k, j)
  }

  /** In a serialised run no initiation is consumed twice, whatever else happens in between. */
  lemma NoReplay(d: Device, trace: seq<State>, steps: seq<Step>, k: nat, j: nat, m: Initiation)
    requires IsRun(d, trace, steps) && Serialised(trace, steps)
    requires Consumes(trace, steps, k, m) && Consumes(trace, steps, j, m)
    ensures k == j
  {
    if k < j { TakenBefore(d, trace, steps, k, j, m); }
    if j < k { TakenBefore(d, trace, steps, j, k, m); }
  }

  /** The comparison under the write lock succeeds exactly if the initiation is later than all that were taken from
      the peer. */
  lemma RetestIs(d: Device, trace: seq<State>, steps: seq<Step>, j: nat, m: Initiation)
    requires IsRun(d, trace, steps) && Consumes(trace, steps, j, m)
    ensures var r := trace[j].held[steps[j].w].reading;
            && r.peer in trace[j].peers
            && (Less(trace[j].peers[r.peer].latest, r.timestamp) <==>
                forall n :: 0 <= n < |trace[j].taken| && trace[j].taken[n].peer == r.peer ==>
                  Less(trace[j].taken[n].timestamp, r.timestamp))
  {
    RunInv(d, trace, steps, j);
    var s, p0 := trace[j], trace[0].peers;
    var r := s.held[steps[j].w].reading;
    assert Genuine(ReaderOf(d, p0), p0, m, r.peer, r.timestamp);
    if Less(s.peers[r.peer].latest, r.timestamp) {
      forall n | 0 <= n < |s.taken| && s.taken[n].peer == r.peer
        ensures Less(s.taken[n].timestamp, r.timestamp)
      {
        NotEarlier(s.taken[n].timestamp, s.peers[r.peer].latest, r.timestamp);
      }
    }
  }

  // ---------------------------------------------------------------- how often

  /** The time of the last consumption never goes back, and is at least that of each commit. */
  lemma LastStep(d: Device, s: State, step: Step, k: Bytes)
    requires Enabled(s, step) && k in s.peers
    ensures k in Apply(d, s, step).peers && s.peers[k].lastConsumption <= Apply(d, s, step).peers[k].lastConsumption
    ensures step.Commit? && s.held[step.w].reading.peer == k ==>
            step.now <= Apply(d, s, step).peers[k].lastConsumption
  {
    if !step.Check? && !step.Commit? { RewrittenKeeps(d, s, step); }
  }

  lemma {:induction false} LastGrows(d: Device, trace: seq<State>, steps: seq<Step>, i: nat, j: nat, k: Bytes)
    requires IsRun(d, trace, steps) && i <= j < |trace| && k in trace[i].peers
    ensures k in trace[j].peers && trace[i].peers[k].lastConsumption <= trace[j].peers[k].lastConsumption
    decreases j - i
  {
    if i == j {
    } else {
      LastGrows(d, trace, steps, i, j - 1, k);
      assert IsStep(d, trace, steps, j - 1);
      LastStep(d, trace[j - 1], steps[j - 1], k);
    }
  }

  lemma HeldOver(trace: seq<State>, steps: seq<Step>, i: nat, k: nat, j: nat)
    requires |trace| == |steps| + 1 && i < k < j < |steps| && steps[j].Commit?
    requires forall x :: i < x <= j ==> steps[j].w in trace[x].held
    ensures Overlaps(trace, steps, k, j)
  {
  }

  /**
   No flood: an initiation is consumed only if it was checked at least a fiftieth of a second after
   every commit for its peer that came before the check.
   */
  lemma NoFlood(d: Device, trace: seq<State>, steps: seq<Step>, k: nat, j: nat, m: Initiation, m': Initiation)
    returns (i: nat)
    requires IsRun(d, trace, steps) && k < j && Consumes(trace, steps, k, m) && Consumes(trace, steps, j, m')
    requires PeerOf(trace, steps, k, m) == PeerOf(trace, steps, j, m') && !Overlaps(trace, steps, k, j)
    ensures k < i < j && steps[i].Check? && steps[i].w == steps[j].w && steps[i].m == m'
    ensures steps[k].now + 20_000_000 <= steps[i].now
  {
    var peer := PeerOf(trace, steps, k, m);
    i := HeldSince(d, trace, steps, j, steps[j].w);
    assert IsStep(d, trace, steps, k);
    LastStep(d, trace[k], steps[k], peer);
    assert i != k;
    if i < k { HeldOver(trace, steps, i, k, j); }
    LastGrows(d, trace, steps, k + 1, i, peer);
  }

  // ---------------------------------------------------------------- how many workers it takes

  predicate ByWorker(step: Step) { step.Check? || step.Commit? || step.CheckAnswer? || step.CommitAnswer? }

  predicate ByWorkers(steps: seq<Step>, n: nat) {
    forall i :: 0 <= i < |steps| && ByWorker(steps[i]) ==> steps[i].w < n
  }

  ghost predicate SomeRunReplays(d: Device, peers: map<Bytes, Handshake>, m: Initiation, n: nat) {
    exists trace: seq<State>, steps: seq<Step>, k, j ::
      && IsRun(d, trace, steps) && trace[0].peers == peers && ByWorkers(steps, n)
      && 0 <= k < j && Consumes(trace, steps, k, m) && Consumes(trace, steps, j, m)
  }

  /** Two workers check the same initiation before either takes it: both take it. */
  lemma TwoWorkersReplay(d: Device, peers: map<Bytes, Handshake>, m: Initiation,
                         now: int) returns (trace: seq<State>, steps: seq<Step>)
    requires var r := ReadInitiation(d.c, d.me, peers, m);
             r.Some? && Passes(peers[r.value.peer], r.value.timestamp, now)
    ensures IsRun(d, trace, steps) && trace[0].peers == peers && ByWorkers(steps, 2)
    ensures Consumes(trace, steps, 2, m) && Consumes(trace, steps, 3, m)
  {
    var r := ReadInitiation(d.c, d.me, peers, m).value;
    var s0 := State(peers, map[], []);
    var s1 := s0.(held := map[0 := Initiated(m, r)]);
    var s2 := s0.(held := map[0 := Initiated(m, r), 1 := Initiated(m, r)]);
    assert Checked(s0, 0, m, Some(r), now) == s1 && Checked(s1, 1, m, Some(r), now) == s2;
    var s3 := CommitStep(s2, 0, now);
    var s4 := CommitStep(s3, 1, now);
    trace, steps := [s0, s1, s2, s3, s4], [Check(0, m, now), Check(1, m, now), Commit(0, now), Commit(1, now)];
    assert IsStep(d, trace, steps, 0) && IsStep(d, trace, steps, 1);
    assert IsStep(d, trace, steps, 2) && IsStep(d, trace, steps, 3);
  }

  lemma OtherWorker(d: Device, trace: seq<State>, steps: seq<Step>, k: nat, j: nat, m: Initiation)
    requires IsRun(d, trace, steps) && k < j && Consumes(trace, steps, k, m) && Consumes(trace, steps, j, m)
    ensures steps[k].w != steps[j].w
  {
    TakenBefore(d, trace, steps, k, j, m);
    assert IsStep(d, trace, steps, k);
    assert steps[j].w in trace[k + 1].held;
  }

  /** An initiation that would be accepted can be consumed twice in some run exactly if there are at least two
      workers. */
  lemma ReplayIffTwoWorkers(d: Device, peers: map<Bytes, Handshake>, m: Initiation, now: int, n: nat)
    requires var r := ReadInitiation(d.c, d.me, peers, m);
             r.Some? && Passes(peers[r.value.peer], r.value.timestamp, now)
    ensures SomeRunReplays(d, peers, m, n) <==> n >= 2
  {
    if n >= 2 {
      var trace, steps := TwoWorkersReplay(d, peers, m, now);
      assert ByWorkers(steps, n);
    } else if SomeRunReplays(d, peers, m, n) {
      var trace: seq<State>, steps: seq<Step>, k, j :|
        && IsRun(d, trace, steps) && trace[0].peers == peers && ByWorkers(steps, n)
        && 0 <= k < j && Consumes(trace, steps, k, m) && Consumes(trace, steps, j, m);
      OtherWorker(d, trace, steps, k, j, m);
      assert false;
    }
  }

  // ---------------------------------------------------------------- answers that come late

  /** What a worker holds stays until its own next step. */
  lemma HeldStep(d: Device, s: State, step: Step, w: nat)
    requires Enabled(s, step) && w in s.held && (ByWorker(step) ==> step.w != w)
    ensures w in Apply(d, s, step).held && Apply(d, s, step).held[w] == s.held[w]
  {
    match step
    case Check(_, _, _) =>
    case Commit(_, _) =>
    case CheckAnswer(_, _, _) =>
    case CommitAnswer(_) =>
    case Initiate(_, _, _, _) =>
    case Respond(_, _, _) =>
    case Begin(_, _, _) =>
    case Clear(_) =>
  }

  /** Steps i and j are the two sections of one worker, with no other step of its own in between. */
  predicate Sections(steps: seq<Step>, i: nat, j: nat, w: nat, peer: Bytes, m2: Response) {
    && i < j < |steps| && steps[i] == CheckAnswer(w, peer, m2) && steps[j] == CommitAnswer(w)
    && forall x :: i < x < j && ByWorker(steps[x]) ==> steps[x].w != w
  }

  lemma {:induction false} AnswerStays(d: Device, trace: seq<State>, steps: seq<Step>, i: nat, j: nat, k: nat, w: nat,
                                       peer: Bytes, m2: Response)
    requires IsRun(d, trace, steps) && Sections(steps, i, j, w, peer, m2) && i < k <= j
    requires peer in trace[i].peers && ReadResponse(d.c, d.me, trace[i].peers[peer], m2).Some?
    ensures w in trace[k].held
    ensures trace[k].held[w] == Answered(peer, m2, ReadResponse(d.c, d.me, trace[i].peers[peer], m2).value)
    decreases k
  {
    assert IsStep(d, trace, steps, k - 1);
    if k == i + 1 {
    } else {
      AnswerStays(d, trace, steps, i, j, k - 1, w, peer, m2);
      HeldStep(d, trace[k - 1], steps[k - 1], w);
    }
  }

  /** Opposite directions of one session. */
  predicate Matched(a: Option<Session>, b: Option<Session>) {
    && a.Some? && b.Some? && a.value.initiator && !b.value.initiator
    && a.value.sending == b.value.receiving && a.value.receiving == b.value.sending
  }

  /**
   The answer to an initiation is read under one lock section and taken under another.  Whatever
   happens in between, a second initiation of ours included, either the second section finds the
   handshake past its initiation and takes nothing, or both ends begin the same session.
   */
  lemma LateAnswerAgrees(d: Device, trace: seq<State>, steps: seq<Step>, i: nat, j: nat, w: nat,
                         b: Identity, hb: Handshake, secret: Bytes, index: nat)
    requires IsRun(d, trace, steps) && Laws(d.c) && d.me.Some?
    requires CreateResponse(d.c, hb, secret, index).0.Some?
    requires Sections(steps, i, j, w, b.public, CreateResponse(d.c, hb, secret, index).0.value)
    requires b.public in trace[i].peers && Acquainted(d.c, d.me.value, trace[i].peers[b.public], b, hb)
    requires var ha := trace[i].peers[b.public];
             && ha.phase == CreatedInitiation && hb.phase == ConsumedInitiation && ha.sym == hb.sym
             && d.c.Public(ha.ephemeral) == Some(hb.remoteEphemeral)
    ensures b.public in trace[j].peers && b.public in trace[j + 1].peers
    ensures if trace[j].peers[b.public].phase != CreatedInitiation then trace[j + 1].peers == trace[j].peers
            else
              var (ha, hb') := (trace[j + 1].peers[b.public], CreateResponse(d.c, hb, secret, index).1);
              && Matched(BeginSession(d.c, ha, true, false).0, BeginSession(d.c, hb', true, false).0)
              && ha.remoteIndex == index
  {
    var m2 := CreateResponse(d.c, hb, secret, index).0.value;
    ResponseUnderstood(d.c, d.me.value, trace[i].peers[b.public], b, hb, secret, index);
    AnswerStays(d, trace, steps, i, j, j, w, b.public, m2);
    assert IsStep(d, trace, steps, j);
  }
}
