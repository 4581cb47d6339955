/**
 No work item is ever run by two workers at once, in any interleaving of queueing, cancelling,
 flushing and running, although an item loses its PENDING bit before its function runs and can
 be queued towards another pool meanwhile.
 */
module WorkReentrancy {
  import opened Maybe
  import opened WorkExecution

  // ---------------------------------------------------------------- lists

  predicate InPlace(works: seq<Work>, list: seq<nat>, place: Place) {
    forall i :: 0 <= i < |list| ==> list[i] < |works| && works[list[i]].place == place
  }

  predicate NoRepeat(list: seq<nat>) { forall i, j :: 0 <= i < j < |list| ==> list[i] != list[j] }

  /** A linked item is followed by a barrier. */
  predicate LinksLead(list: seq<nat>, linked: set<nat>, barriers: set<nat>) {
    forall i :: 0 <= i < |list| && list[i] in linked ==> i + 1 < |list| && list[i + 1] in barriers
  }

  predicate ListOk(works: seq<Work>, list: seq<nat>, place: Place, linked: set<nat>, barriers: set<nat>) {
    && (list != [] ==> place != Nowhere) && InPlace(works, list, place) && NoRepeat(list)
    && LinksLead(list, linked, barriers)
  }

  ghost predicate ListsOk(works: seq<Work>, lists: map<Place, seq<nat>>, linked: set<nat>, barriers: set<nat>) {
    forall place {:trigger ListOk(works, At(lists, place), place, linked, barriers)} ::
      ListOk(works, At(lists, place), place, linked, barriers)
  }

  /** An item with a place is on that list, and only such an item is linked. */
  predicate Found(works: seq<Work>, lists: map<Place, seq<nat>>, linked: set<nat>) {
    && (forall w :: 0 <= w < |works| && works[w].place != Nowhere ==> w in At(lists, works[w].place))
    && (forall w :: w in linked ==> w < |works| && works[w].place != Nowhere)
  }

  // ---------------------------------------------------------------- items and workers

  predicate WorkOk(pools: seq<nat>, barrier: bool, w: Work) {
    && (w.place == Nowhere <==> w.data.Off?)
    && (w.data.On? ==> w.pending && w.stage == Free && PlacePool(pools, w.place) == w.data.pool)
    && (w.data.Off? ==> (w.pending <==> w.stage != Free))
    && (barrier ==> w.stage == Free)
  }

  predicate WorksOk(works: seq<Work>, pools: seq<nat>, barriers: set<nat>) {
    forall w :: 0 <= w < |works| ==> WorkOk(pools, w in barriers, works[w])
  }

  /** Worker v may be running item w. */
  predicate RunOk(works: seq<Work>, pools: seq<nat>, barriers: set<nat>, v: nat, w: nat) {
    && v < |pools| && w < |works| && LastPool(works[w].data) == Some(pools[v])
    && (works[w].place.Scheduled? ==> works[w].place.worker == v)
    && !works[w].stage.Aimed? && !(w in barriers && works[w].pending)
  }

  predicate RunsOk(works: seq<Work>, pools: seq<nat>, barriers: set<nat>, current: seq<Option<nat>>) {
    forall v :: 0 <= v < |current| && current[v].Some? ==> RunOk(works, pools, barriers, v, current[v].value)
  }

  /** Two workers never have the same current_work. */
  predicate Alone(current: seq<Option<nat>>) {
    forall u, v :: 0 <= u < v < |current| && current[u].Some? ==> current[u] != current[v]
  }

  ghost predicate Inv(s: State) {
    && Shape(s) && ListsOk(s.works, s.lists, s.linked, s.barriers) && Found(s.works, s.lists, s.linked)
    && WorksOk(s.works, s.pools, s.barriers) && RunsOk(s.works, s.pools, s.barriers, s.current) && Alone(s.current)
  }

  // ---------------------------------------------------------------- one item changes

  /** Lists do not look at anything but the place of an item. */
  lemma ListsFrame(works: seq<Work>, works': seq<Work>, lists: map<Place, seq<nat>>, linked: set<nat>,
                   barriers: set<nat>)
    requires ListsOk(works, lists, linked, barriers) && |works'| == |works|
    requires forall w :: 0 <= w < |works| ==> works'[w].place == works[w].place
    ensures ListsOk(works', lists, linked, barriers)
  {
    forall place
      ensures ListOk(works', At(lists, place), place, linked, barriers)
    {
      assert ListOk(works, At(lists, place), place, linked, barriers);
    }
  }

  /** A change of an item that keeps its place and its pool. */
  lemma ItemOk(s: State, w: nat, item: Work)
    requires Inv(s) && w < |s.works| && item.place == s.works[w].place && item.data == s.works[w].data
    requires WorkOk(s.pools, w in s.barriers, item)
    requires item.stage.Aimed? || (w in s.barriers && item.pending) ==>
               forall v :: 0 <= v < |s.current| ==> s.current[v] != Some(w)
    ensures Inv(s.(works := s.works[w := item]))
  {
    ListsFrame(s.works, s.works[w := item], s.lists, s.linked, s.barriers);
  }

  /** An item that no pool is recorded for is not running; one recorded for a pool runs there or nowhere. */
  lemma NotRunning(s: State, w: nat)
    requires Inv(s) && w < |s.works|
    requires var last := LastPool(s.works[w].data);
             last.None? || Executor(s.pools, s.current, last.value, w, 0).None?
    ensures forall v :: 0 <= v < |s.current| ==> s.current[v] != Some(w)
  {
    forall v | 0 <= v < |s.current|
      ensures s.current[v] != Some(w)
    {
      assert s.current[v] == Some(w) ==> RunOk(s.works, s.pools, s.barriers, v, w);
    }
  }

  // ---------------------------------------------------------------- lists change

  /** Items on the list keep their place, and none of them becomes linked. */
  predicate Untouched(works: seq<Work>, works': seq<Work>, list: seq<nat>, linked: set<nat>, linked': set<nat>) {
    forall i :: 0 <= i < |list| && list[i] < |works| ==>
      list[i] < |works'| && works'[list[i]].place == works[list[i]].place && (list[i] in linked' ==> list[i] in linked)
  }

  /** The step leaves the list as it is, and the items on it where they are. */
  predicate KeepsList(s: State, s': State, place: Place) {
    && At(s'.lists, place) == At(s.lists, place)
    && Untouched(s.works, s'.works, At(s.lists, place), s.linked, s'.linked)
  }

  lemma ListsChange(s: State, s': State, touched: set<Place>)
    requires ListsOk(s.works, s.lists, s.linked, s.barriers) && s'.barriers == s.barriers
    requires forall place :: place !in touched ==> KeepsList(s, s', place)
    requires forall place :: place in touched ==> ListOk(s'.works, At(s'.lists, place), place, s'.linked, s'.barriers)
    ensures ListsOk(s'.works, s'.lists, s'.linked, s'.barriers)
  {
    forall place
      ensures ListOk(s'.works, At(s'.lists, place), place, s'.linked, s'.barriers)
    {
      assert ListOk(s.works, At(s.lists, place), place, s.linked, s.barriers);
      assert place !in touched ==> KeepsList(s, s', place);
    }
  }

  lemma TwoListsChange(s: State, s': State, from: Place, to: Place)
    requires ListsOk(s.works, s.lists, s.linked, s.barriers) && s'.barriers == s.barriers
    requires forall place :: place != from && place != to ==> KeepsList(s, s', place)
    requires ListOk(s'.works, At(s'.lists, from), from, s'.linked, s'.barriers)
    requires ListOk(s'.works, At(s'.lists, to), to, s'.linked, s'.barriers)
    ensures ListsOk(s'.works, s'.lists, s'.linked, s'.barriers)
  {
    ListsChange(s, s', {from, to});
  }

  /** Lists other than its own do not hold an item. */
  lemma Elsewhere(s: State, w: nat, place: Place)
    requires ListsOk(s.works, s.lists, s.linked, s.barriers) && w < |s.works| && s.works[w].place != place
    ensures w !in At(s.lists, place)
  {
    assert ListOk(s.works, At(s.lists, place), place, s.linked, s.barriers);
  }

  /** The step writes item w only and moves nothing on the lists it does not name. */
  lemma OneItem(s: State, w: nat, item: Work, place: Place, linked': set<nat>)
    requires ListsOk(s.works, s.lists, s.linked, s.barriers) && w < |s.works|
    requires s.works[w].place == Nowhere || s.works[w].place == place
    requires forall x :: x in linked' ==> x in s.linked || x == w || x in At(s.lists, place)
    ensures forall q :: q != place ==> Untouched(s.works, s.works[w := item], At(s.lists, q), s.linked, linked')
  {
    forall q | q != place
      ensures Untouched(s.works, s.works[w := item], At(s.lists, q), s.linked, linked')
    {
      assert ListOk(s.works, At(s.lists, q), q, s.linked, s.barriers);
      assert ListOk(s.works, At(s.lists, place), place, s.linked, s.barriers);
    }
  }

  // ---------------------------------------------------------------- queueing

  lemma InsertLists(s: State, w: nat, pool: nat, wait: bool)
    requires ListsOk(s.works, s.lists, s.linked, s.barriers) && Found(s.works, s.lists, s.linked)
    requires w < |s.works| && s.works[w].place == Nowhere
    ensures var s' := Insert(s, w, pool, wait);
            ListsOk(s'.works, s'.lists, s'.linked, s'.barriers) && Found(s'.works, s'.lists, s'.linked)
  {
    var s' := Insert(s, w, pool, wait);
    var place := if wait then Inactive(pool) else Worklist(pool);
    InsertEnd(s, w, pool, wait);
    ListsChange(s, s', {place});
    forall x | 0 <= x < |s'.works| && s'.works[x].place != Nowhere
      ensures x in At(s'.lists, s'.works[x].place)
    {
      if x != w { assert x in At(s.lists, s.works[x].place); }
    }
  }

  /** The list the item goes to is in order with it, and no other list changes. */
  lemma InsertEnd(s: State, w: nat, pool: nat, wait: bool)
    requires ListsOk(s.works, s.lists, s.linked, s.barriers) && Found(s.works, s.lists, s.linked)
    requires w < |s.works| && s.works[w].place == Nowhere
    ensures var s', place := Insert(s, w, pool, wait), if wait then Inactive(pool) else Worklist(pool);
            && ListOk(s'.works, At(s'.lists, place), place, s'.linked, s'.barriers)
            && (forall q :: q != place ==> KeepsList(s, s', q))
  {
    var s' := Insert(s, w, pool, wait);
    var place := if wait then Inactive(pool) else Worklist(pool);
    var list := At(s.lists, place);
    OneItem(s, w, s'.works[w], place, s.linked);
    Elsewhere(s, w, place);
    assert ListOk(s.works, list, place, s.linked, s.barriers);
    assert ListOk(s'.works, list + [w], place, s.linked, s.barriers);
  }

  /** Queueing on a pool keeps the invariant if the item runs on that pool or nowhere. */
  lemma InsertOk(s: State, w: nat, pool: nat, wait: bool)
    requires Inv(s) && w < |s.works| && s.works[w].stage != Free && s.works[w].data.Off?
    requires forall v :: 0 <= v < |s.current| && s.current[v] == Some(w) ==> s.pools[v] == pool
    ensures Inv(Insert(s, w, pool, wait))
  {
    InsertLists(s, w, pool, wait);
  }

  lemma QueueOk(s: State, w: nat, pool: nat, wait: bool)
    requires Inv(s) && w < |s.works| && s.works[w].stage.Claimed?
    ensures Inv(QueueStep(s, w, pool, wait))
  {
    assert WorkOk(s.pools, w in s.barriers, s.works[w]);
    var last := LastPool(s.works[w].data);
    assert forall v :: 0 <= v < |s.current| && s.current[v] == Some(w) ==> RunOk(s.works, s.pools, s.barriers, v, w);
    if last.None? || last.value == pool {
      InsertOk(s, w, pool, wait);
    } else if Executor(s.pools, s.current, last.value, w, 0).Some? {
      InsertOk(s, w, last.value, wait);
    } else {
      NotRunning(s, w);
      ItemOk(s, w, s.works[w].(stage := Aimed(pool)));
    }
  }

  lemma QueueOnOk(s: State, w: nat, wait: bool)
    requires Inv(s) && w < |s.works| && s.works[w].stage.Aimed?
    ensures Inv(Insert(s, w, s.works[w].stage.pool, wait))
  {
    assert WorkOk(s.pools, w in s.barriers, s.works[w]);
    assert forall v :: 0 <= v < |s.current| && s.current[v] == Some(w) ==> RunOk(s.works, s.pools, s.barriers, v, w);
    InsertOk(s, w, s.works[w].stage.pool, wait);
  }

  // ---------------------------------------------------------------- series move

  /** The parts of a list from which the series i..e is taken. */
  predicate Cut(list: seq<nat>, i: nat, e: nat, linked: set<nat>) {
    && i < e <= |list| && (i > 0 ==> list[i - 1] !in linked) && list[e - 1] !in linked
  }

  lemma CutAt(works: seq<Work>, list: seq<nat>, place: Place, i: nat, linked: set<nat>, barriers: set<nat>)
    requires ListOk(works, list, place, linked, barriers) && i < |list| && (i > 0 ==> list[i - 1] !in linked)
    ensures Cut(list, i, SeriesEnd(list, i, linked), linked)
    ensures forall j :: i < j < SeriesEnd(list, i, linked) ==> list[j] in barriers
  {
    var e := SeriesEnd(list, i, linked);
    assert list[e - 1] in linked ==> e < |list|;
    forall j | i < j < e
      ensures list[j] in barriers
    {
      assert list[j - 1] in linked;
    }
  }

  /** Where the items that stay were before. */
  function Before(j: nat, i: nat, e: nat): nat
    requires i <= e
  {
    if j < i then j else j - i + e
  }

  lemma KeptAt(list: seq<nat>, i: nat, e: nat, j: nat)
    requires i < e <= |list| && j < |list[..i] + list[e..]|
    ensures Before(j, i, e) < |list| && (list[..i] + list[e..])[j] == list[Before(j, i, e)]
  {
  }

  lemma KeptNoRepeat(list: seq<nat>, i: nat, e: nat)
    requires NoRepeat(list) && i < e <= |list|
    ensures NoRepeat(list[..i] + list[e..])
    ensures forall j :: 0 <= j < |list[..i] + list[e..]| ==> (list[..i] + list[e..])[j] !in list[i..e]
  {
    var kept := list[..i] + list[e..];
    forall a, b | 0 <= a < b < |kept|
      ensures kept[a] != kept[b]
    {
      KeptAt(list, i, e, a);
      KeptAt(list, i, e, b);
    }
    forall j, m | 0 <= j < |kept| && i <= m < e
      ensures kept[j] != list[m]
    {
      KeptAt(list, i, e, j);
    }
  }

  lemma KeptLinks(list: seq<nat>, i: nat, e: nat, linked: set<nat>, barriers: set<nat>)
    requires LinksLead(list, linked, barriers) && Cut(list, i, e, linked)
    ensures LinksLead(list[..i] + list[e..], linked, barriers)
  {
    var kept := list[..i] + list[e..];
    forall j | 0 <= j < |kept| && kept[j] in linked
      ensures j + 1 < |kept| && kept[j + 1] in barriers
    {
      KeptAt(list, i, e, j);
      var k := Before(j, i, e);
      assert list[k] in linked;
      assert k + 1 == Before(j + 1, i, e);
      KeptAt(list, i, e, j + 1);
    }
  }

  lemma KeptOk(works: seq<Work>, works': seq<Work>, list: seq<nat>, place: Place, i: nat, e: nat, linked: set<nat>,
               barriers: set<nat>)
    requires ListOk(works, list, place, linked, barriers) && Cut(list, i, e, linked) && |works'| == |works|
    requires forall w :: 0 <= w < |works| && w !in list[i..e] ==> works'[w].place == works[w].place
    ensures ListOk(works', list[..i] + list[e..], place, linked, barriers)
  {
    var kept := list[..i] + list[e..];
    KeptNoRepeat(list, i, e);
    KeptLinks(list, i, e, linked, barriers);
    forall j | 0 <= j < |kept|
      ensures kept[j] < |works'| && works'[kept[j]].place == place
    {
      KeptAt(list, i, e, j);
    }
  }

  lemma JoinedOk(works': seq<Work>, tail: seq<nat>, seg: seq<nat>, place: Place, linked: set<nat>, barriers: set<nat>)
    requires ListOk(works', tail, place, linked, barriers) && ListOk(works', seg, place, linked, barriers)
    requires forall w :: w in seg ==> w !in tail
    ensures ListOk(works', tail + seg, place, linked, barriers)
  {
    var list := tail + seg;
    forall j | 0 <= j < |list|
      ensures list[j] in linked ==> j + 1 < |list| && list[j + 1] in barriers
    {
      if j < |tail| { assert list[j] == tail[j]; } else { assert list[j] == seg[j - |tail|]; }
    }
    forall a, b | 0 <= a < b < |list|
      ensures list[a] != list[b]
    {
      if a < |tail| && |tail| <= b { assert seg[b - |tail|] in seg && tail[a] in tail; }
    }
  }

  lemma SegmentOk(works: seq<Work>, works': seq<Work>, list: seq<nat>, place: Place, to: Place, i: nat, e: nat,
                  linked: set<nat>, barriers: set<nat>)
    requires ListOk(works, list, place, linked, barriers) && Cut(list, i, e, linked) && |works'| == |works|
    requires to != Nowhere
    requires forall w :: w in list[i..e] && w < |works| ==> works'[w].place == to
    ensures ListOk(works', list[i..e], to, linked, barriers)
  {
    var seg := list[i..e];
    forall j | 0 <= j < |seg|
      ensures seg[j] < |works'| && works'[seg[j]].place == to
      ensures seg[j] in linked ==> j + 1 < |seg| && seg[j + 1] in barriers
    {
      assert seg[j] == list[i + j] && seg[j] in seg;
    }
  }

  /** The two lists a move changes are in order after it. */
  lemma MovedEnds(s: State, from: Place, i: nat, to: Place)
    requires ListsOk(s.works, s.lists, s.linked, s.barriers)
    requires i < |At(s.lists, from)| && from != to && to != Nowhere
    requires i > 0 ==> At(s.lists, from)[i - 1] !in s.linked
    ensures var s' := MoveSeries(s, from, i, to);
            && ListOk(s'.works, At(s'.lists, from), from, s.linked, s.barriers)
            && ListOk(s'.works, At(s'.lists, to), to, s.linked, s.barriers)
  {
    var s' := MoveSeries(s, from, i, to);
    var list, tail := At(s.lists, from), At(s.lists, to);
    var e := SeriesEnd(list, i, s.linked);
    assert ListOk(s.works, list, from, s.linked, s.barriers) && ListOk(s.works, tail, to, s.linked, s.barriers);
    CutAt(s.works, list, from, i, s.linked, s.barriers);
    KeptOk(s.works, s'.works, list, from, i, e, s.linked, s.barriers);
    SegmentOk(s.works, s'.works, list, from, to, i, e, s.linked, s.barriers);
    MoveOthers(s, from, i, e, to);
    assert ListOk(s'.works, tail, to, s.linked, s.barriers);
    JoinedOk(s'.works, tail, list[i..e], to, s.linked, s.barriers);
  }

  lemma MoveLists(s: State, from: Place, i: nat, to: Place)
    requires ListsOk(s.works, s.lists, s.linked, s.barriers) && Found(s.works, s.lists, s.linked)
    requires i < |At(s.lists, from)| && from != to && to != Nowhere
    requires i > 0 ==> At(s.lists, from)[i - 1] !in s.linked
    ensures var s' := MoveSeries(s, from, i, to);
            ListsOk(s'.works, s'.lists, s'.linked, s'.barriers) && Found(s'.works, s'.lists, s'.linked)
  {
    var s' := MoveSeries(s, from, i, to);
    MovedEnds(s, from, i, to);
    MoveKeeps(s, from, i, to);
    TwoListsChange(s, s', from, to);
    MoveFound(s, from, i, to);
  }

  /** No list but `from` holds an item of the series. */
  lemma MoveOthers(s: State, from: Place, i: nat, e: nat, to: Place)
    requires ListsOk(s.works, s.lists, s.linked, s.barriers) && i <= e <= |At(s.lists, from)|
    ensures var works' := Placed(s.works, At(s.lists, from)[i..e], to);
            forall q :: q != from ==>
              Untouched(s.works, works', At(s.lists, q), s.linked, s.linked)
              && forall w :: w in At(s.lists, from)[i..e] ==> w !in At(s.lists, q)
  {
    var list := At(s.lists, from);
    assert ListOk(s.works, list, from, s.linked, s.barriers);
    forall q | q != from
      ensures Untouched(s.works, Placed(s.works, list[i..e], to), At(s.lists, q), s.linked, s.linked)
      ensures forall w :: w in list[i..e] ==> w !in At(s.lists, q)
    {
      assert ListOk(s.works, At(s.lists, q), q, s.linked, s.barriers);
    }
  }

  lemma MoveKeeps(s: State, from: Place, i: nat, to: Place)
    requires ListsOk(s.works, s.lists, s.linked, s.barriers) && i < |At(s.lists, from)| && from != to
    ensures forall place :: place != from && place != to ==> KeepsList(s, MoveSeries(s, from, i, to), place)
  {
    MoveOthers(s, from, i, SeriesEnd(At(s.lists, from), i, s.linked), to);
  }

  lemma MoveFound(s: State, from: Place, i: nat, to: Place)
    requires ListsOk(s.works, s.lists, s.linked, s.barriers) && Found(s.works, s.lists, s.linked)
    requires i < |At(s.lists, from)| && from != to && to != Nowhere
    ensures var s' := MoveSeries(s, from, i, to); Found(s'.works, s'.lists, s'.linked)
  {
    var s' := MoveSeries(s, from, i, to);
    var list := At(s.lists, from);
    var e := SeriesEnd(list, i, s.linked);
    forall w | 0 <= w < |s'.works| && s'.works[w].place != Nowhere
      ensures w in At(s'.lists, s'.works[w].place)
    {
      if w !in list[i..e] {
        assert w in At(s.lists, s.works[w].place);
        if s.works[w].place == from { StaysIn(list, i, e, w); }
      }
    }
  }

  lemma StaysIn(list: seq<nat>, i: nat, e: nat, w: nat)
    requires i <= e <= |list| && w in list && w !in list[i..e]
    ensures w in list[..i] + list[e..]
  {
    assert list == list[..i] + list[i..e] + list[e..];
  }

  lemma MoveWorks(s: State, from: Place, i: nat, to: Place)
    requires ListsOk(s.works, s.lists, s.linked, s.barriers) && WorksOk(s.works, s.pools, s.barriers)
    requires i < |At(s.lists, from)| && from != to && to != Nowhere
    requires PlacePool(s.pools, to) == PlacePool(s.pools, from)
    ensures WorksOk(MoveSeries(s, from, i, to).works, s.pools, s.barriers)
  {
    var list := At(s.lists, from);
    var s' := MoveSeries(s, from, i, to);
    assert ListOk(s.works, list, from, s.linked, s.barriers);
    forall w | 0 <= w < |s'.works|
      ensures WorkOk(s.pools, w in s.barriers, s'.works[w])
    {
      assert WorkOk(s.pools, w in s.barriers, s.works[w]);
      if w in list[i..SeriesEnd(list, i, s.linked)] { assert s.works[w].place == from; }
    }
  }

  lemma ActivateOk(s: State, pool: nat, i: nat)
    requires Inv(s) && Enabled(s, Activate(pool, i))
    ensures Inv(Apply(s, Activate(pool, i)))
  {
    MoveLists(s, Inactive(pool), i, Worklist(pool));
    MoveWorks(s, Inactive(pool), i, Worklist(pool));
    MovedRuns(s, Inactive(pool), i, Worklist(pool));
  }

  predicate RunsIn(current: Option<nat>, series: seq<nat>) { current.Some? && current.value in series }

  /** A series may move to a list of any kind if whoever runs one of its items owns that list. */
  lemma MovedRuns(s: State, from: Place, i: nat, to: Place)
    requires i < |At(s.lists, from)| && from != to && RunsOk(s.works, s.pools, s.barriers, s.current)
    requires to.Scheduled? ==>
      var list := At(s.lists, from);
      forall v :: 0 <= v < |s.current| && RunsIn(s.current[v], list[i..SeriesEnd(list, i, s.linked)]) ==> v == to.worker
    ensures RunsOk(MoveSeries(s, from, i, to).works, s.pools, s.barriers, s.current)
  {
    forall v | 0 <= v < |s.current| && s.current[v].Some?
      ensures RunOk(MoveSeries(s, from, i, to).works, s.pools, s.barriers, v, s.current[v].value)
    {
      assert RunOk(s.works, s.pools, s.barriers, v, s.current[v].value);
      MovedRun(s, from, i, to, v, s.current[v].value);
    }
  }

  lemma MovedRun(s: State, from: Place, i: nat, to: Place, v: nat, w: nat)
    requires i < |At(s.lists, from)| && from != to && RunOk(s.works, s.pools, s.barriers, v, w)
    requires to.Scheduled? && w in At(s.lists, from)[i..SeriesEnd(At(s.lists, from), i, s.linked)] ==> v == to.worker
    ensures RunOk(MoveSeries(s, from, i, to).works, s.pools, s.barriers, v, w)
  {
  }

  /** Whoever runs the first item of a series on a pool's worklist is the one the source looks for. */
  lemma CollisionIs(s: State, pool: nat, i: nat, v: nat, w: nat)
    requires Inv(s) && i < |At(s.lists, Worklist(pool))| && v < |s.current| && s.current[v] == Some(w)
    requires var list := At(s.lists, Worklist(pool));
             && w in list[i..SeriesEnd(list, i, s.linked)] && (i > 0 ==> list[i - 1] !in s.linked)
    ensures Executor(s.pools, s.current, pool, At(s.lists, Worklist(pool))[i], 0) == Some(v)
  {
    var list := At(s.lists, Worklist(pool));
    assert ListOk(s.works, list, Worklist(pool), s.linked, s.barriers);
    CutAt(s.works, list, Worklist(pool), i, s.linked, s.barriers);
    assert RunOk(s.works, s.pools, s.barriers, v, w);
    var j :| i <= j < SeriesEnd(list, i, s.linked) && list[j] == w;
    assert WorkOk(s.pools, w in s.barriers, s.works[w]);
    assert j == i;
  }

  lemma AssignOk(s: State, v: nat, i: nat)
    requires Inv(s) && Enabled(s, Assign(v, i))
    ensures Inv(Apply(s, Assign(v, i)))
  {
    var pool := s.pools[v];
    var list := At(s.lists, Worklist(pool));
    var collision := Executor(s.pools, s.current, pool, list[i], 0);
    var to := Scheduled(if collision.Some? then collision.value else v);
    forall u, w | 0 <= u < |s.current| && s.current[u] == Some(w) && w in list[i..SeriesEnd(list, i, s.linked)]
      ensures u == to.worker
    {
      CollisionIs(s, pool, i, u, w);
    }
    MoveLists(s, Worklist(pool), i, to);
    MoveWorks(s, Worklist(pool), i, to);
    MovedRuns(s, Worklist(pool), i, to);
  }

  // ---------------------------------------------------------------- items leave their list

  lemma RemoveLists(s: State, s': State, place: Place, i: nat)
    requires ListsOk(s.works, s.lists, s.linked, s.barriers) && Found(s.works, s.lists, s.linked)
    requires i < |At(s.lists, place)| && At(s.lists, place)[i] < |s.works|
    requires i > 0 ==> At(s.lists, place)[i - 1] !in s.linked
    requires var w := At(s.lists, place)[i];
             && |s'.works| == |s.works| && s'.works == s.works[w := s'.works[w]] && s'.works[w].place == Nowhere
                && s'.linked == s.linked - {w}
             && s'.lists == s.lists[place := At(s.lists, place)[..i] + At(s.lists, place)[i + 1..]]
             && s'.barriers == s.barriers
    ensures ListsOk(s'.works, s'.lists, s'.linked, s'.barriers) && Found(s'.works, s'.lists, s'.linked)
  {
    var list := At(s.lists, place);
    var w := list[i];
    assert ListOk(s.works, list, place, s.linked, s.barriers);
    assert ListOk(s.works, list, place, s'.linked, s.barriers);
    OneItem(s, w, s'.works[w], place, s'.linked);
    assert list[i..i + 1] == [w];
    KeptOk(s.works, s'.works, list, place, i, i + 1, s'.linked, s.barriers);
    ListsChange(s, s', {place});
    forall x | 0 <= x < |s'.works| && s'.works[x].place != Nowhere
      ensures x in At(s'.lists, s'.works[x].place)
    {
      assert x in At(s.lists, s.works[x].place);
      if s.works[x].place == place { StaysIn(list, i, i + 1, x); }
    }
  }

  lemma StartOk(s: State, v: nat)
    requires Inv(s) && Enabled(s, Start(v))
    ensures Inv(Apply(s, Start(v)))
  {
    var s' := StartStep(s, v);
    var list := At(s.lists, Scheduled(v));
    var w := list[0];
    assert list[..0] + list[0 + 1..] == list[1..];
    RemoveLists(s, s', Scheduled(v), 0);
    assert ListOk(s.works, list, Scheduled(v), s.linked, s.barriers);
    forall u | 0 <= u < |s.current| && s.current[u].Some?
      ensures s.current[u] != Some(w) && RunOk(s'.works, s'.pools, s'.barriers, u, s.current[u].value)
    {
      assert RunOk(s.works, s.pools, s.barriers, u, s.current[u].value);
    }
  }

  lemma TakeOk(s: State, place: Place, i: nat)
    requires Inv(s) && i < |At(s.lists, place)| && At(s.lists, place)[i] < |s.works|
    requires At(s.lists, place)[i] !in s.barriers
    ensures Inv(Take(s, place, i))
  {
    var s' := Take(s, place, i);
    var list := At(s.lists, place);
    assert ListOk(s.works, list, place, s.linked, s.barriers);
    RemoveLists(s, s', place, i);
    assert WorkOk(s.pools, list[i] in s.barriers, s.works[list[i]]);
    forall u | 0 <= u < |s.current| && s.current[u].Some?
      ensures RunOk(s'.works, s'.pools, s'.barriers, u, s.current[u].value)
    {
      assert RunOk(s.works, s.pools, s.barriers, u, s.current[u].value);
    }
  }

  lemma GrabOk(s: State, place: Place, i: nat)
    requires Inv(s) && Enabled(s, Grab(place, i))
    ensures Inv(Apply(s, Grab(place, i)))
  {
    if place.Inactive? {
      var to := Worklist(place.pool);
      var list := At(s.lists, place);
      assert ListOk(s.works, list, place, s.linked, s.barriers);
      MoveLists(s, place, i, to);
      MoveWorks(s, place, i, to);
      MovedRuns(s, place, i, to);
      TakeOk(MoveSeries(s, place, i, to), to, |At(s.lists, to)|);
    } else {
      TakeOk(s, place, i);
    }
  }

  // ---------------------------------------------------------------- barriers

  lemma BarrierLists(s: State, b: nat, place: Place, i: nat)
    requires Inv(s) && Enabled(s, Barrier(b, place, i))
    ensures var s' := BarrierStep(s, b, place, i);
            ListsOk(s'.works, s'.lists, s'.linked, s'.barriers) && Found(s'.works, s'.lists, s'.linked)
  {
    var s' := BarrierStep(s, b, place, i);
    var list := At(s.lists, place);
    var list' := list[..i + 1] + [b] + list[i + 1..];
    assert ListOk(s.works, list, place, s.linked, s.barriers);
    Elsewhere(s, b, place);
    OneItem(s, b, s'.works[b], place, s'.linked);
    BarrierList(s.works, s'.works, list, place, i, b, s.linked, s.barriers);
    ListsChange(s, s', {place});
    assert list == list[..i + 1] + list[i + 1..];
    forall x | 0 <= x < |s'.works| && s'.works[x].place != Nowhere
      ensures x in At(s'.lists, s'.works[x].place)
    {
      if x != b { assert x in At(s.lists, s.works[x].place); }
    }
  }

  lemma BarrierList(works: seq<Work>, works': seq<Work>, list: seq<nat>, place: Place, i: nat, b: nat,
                    linked: set<nat>, barriers: set<nat>)
    requires ListOk(works, list, place, linked, barriers) && i < |list| && b !in list && b in barriers && b < |works|
    requires |works'| == |works| && works' == works[b := works'[b]] && works'[b].place == place && b !in linked
    ensures var linked' := linked + {list[i]} + (if list[i] in linked then {b} else {});
            ListOk(works', list[..i + 1] + [b] + list[i + 1..], place, linked', barriers)
  {
    var list' := list[..i + 1] + [b] + list[i + 1..];
    var linked' := linked + {list[i]} + (if list[i] in linked then {b} else {});
    forall j | 0 <= j < |list'|
      ensures list'[j] < |works'| && works'[list'[j]].place == place
      ensures list'[j] in linked' ==> j + 1 < |list'| && list'[j + 1] in barriers
    {
      if j <= i {
        assert list'[j] == list[j];
      } else if j > i + 1 {
        assert list'[j] == list[j - 1];
      }
    }
    forall a, c | 0 <= a < c < |list'|
      ensures list'[a] != list'[c]
    {
      assert a != i + 1 ==> list'[a] == list[if a <= i then a else a - 1];
      assert c != i + 1 ==> list'[c] == list[if c <= i then c else c - 1];
    }
  }

  lemma FrontLists(s: State, b: nat, v: nat)
    requires Inv(s) && Enabled(s, BarrierRunning(b, v))
    ensures var s' := BarrierFront(s, b, v);
            ListsOk(s'.works, s'.lists, s'.linked, s'.barriers) && Found(s'.works, s'.lists, s'.linked)
  {
    var s', place := BarrierFront(s, b, v), Scheduled(v);
    var list := At(s.lists, place);
    assert ListOk(s.works, list, place, s.linked, s.barriers);
    Elsewhere(s, b, place);
    OneItem(s, b, s'.works[b], place, s.linked);
    assert ListOk(s'.works, list, place, s.linked, s.barriers);
    assert ListOk(s'.works, [b], place, s.linked, s.barriers);
    JoinedOk(s'.works, [b], list, place, s.linked, s.barriers);
    ListsChange(s, s', {place});
    forall x | 0 <= x < |s'.works| && s'.works[x].place != Nowhere
      ensures x in At(s'.lists, s'.works[x].place)
    {
      if x != b { assert x in At(s.lists, s.works[x].place); }
    }
  }

  /** A barrier that was never queued is not running, and its being queued disturbs nobody. */
  lemma FreshOk(s: State, b: nat, item: Work)
    requires Inv(s) && Unused(s, b) && WorkOk(s.pools, true, item)
    ensures WorksOk(s.works[b := item], s.pools, s.barriers)
    ensures RunsOk(s.works[b := item], s.pools, s.barriers, s.current)
  {
    NotRunning(s, b);
  }

  lemma BarrierOk(s: State, step: Step)
    requires Inv(s) && Enabled(s, step) && (step.Barrier? || step.BarrierRunning?)
    ensures Inv(Apply(s, step))
  {
    var s' := Apply(s, step);
    if step.Barrier? {
      BarrierLists(s, step.b, step.place, step.i);
      assert ListOk(s.works, At(s.lists, step.place), step.place, s.linked, s.barriers);
    } else {
      FrontLists(s, step.b, step.v);
    }
    FreshOk(s, step.b, s'.works[step.b]);
  }

  // ---------------------------------------------------------------- every run

  lemma StepOk(s: State, step: Step)
    requires Inv(s) && Enabled(s, step)
    ensures Inv(Apply(s, step))
  {
    match step
    case Claim(w) => ItemOk(s, w, s.works[w].(pending := true, stage := Claimed));
    case Release(w) => ItemOk(s, w, s.works[w].(pending := false, stage := Free));
    case Queue(w, pool, wait) => QueueOk(s, w, pool, wait);
    case QueueOn(w, wait) => QueueOnOk(s, w, wait);
    case Retry(w) => ItemOk(s, w, s.works[w].(stage := Claimed));
    case Activate(pool, i) => ActivateOk(s, pool, i);
    case Assign(v, i) => AssignOk(s, v, i);
    case Start(v) => StartOk(s, v);
    case Finish(v) =>
    case Grab(place, i) => GrabOk(s, place, i);
    case Barrier(b, place, i) => BarrierOk(s, step);
    case BarrierRunning(b, v) => BarrierOk(s, step);
  }

  lemma {:induction false} RunInv(trace: seq<State>, steps: seq<Step>, i: nat)
    requires IsRun(trace, steps) && i < |trace|
    ensures Inv(trace[i])
  {
    if i > 0 {
      RunInv(trace, steps, i - 1);
      assert IsStep(trace, steps, i - 1);
      StepOk(trace[i - 1], steps[i - 1]);
    }
  }

  /** In no reachable state do two workers have the same current_work. */
  lemma NeverReentered(trace: seq<State>, steps: seq<Step>, i: nat, u: nat, v: nat)
    requires IsRun(trace, steps) && i < |trace| && u < |trace[i].current| && v < |trace[i].current|
    requires trace[i].current[u].Some? && trace[i].current[u] == trace[i].current[v]
    ensures u == v
  {
    RunInv(trace, steps, i);
  }

  /** An item queued again while it runs is on a list of the pool it runs on, or on its runner's own. */
  lemma QueuedBehindItself(trace: seq<State>, steps: seq<Step>, i: nat, v: nat, w: nat)
    requires IsRun(trace, steps) && i < |trace| && v < |trace[i].current| && trace[i].current[v] == Some(w)
    requires w < |trace[i].works| && trace[i].works[w].data.On?
    ensures v < |trace[i].pools| && trace[i].works[w].data.pool == trace[i].pools[v]
    ensures forall u :: w in At(trace[i].lists, Scheduled(u)) ==> u == v
  {
    RunInv(trace, steps, i);
    var s := trace[i];
    assert RunOk(s.works, s.pools, s.barriers, v, w);
    forall u | w in At(s.lists, Scheduled(u))
      ensures u == v
    {
      assert ListOk(s.works, At(s.lists, Scheduled(u)), Scheduled(u), s.linked, s.barriers);
    }
  }

  /** A PENDING item is on exactly one list, once, or in the hands of one owner. */
  lemma QueuedOnce(trace: seq<State>, steps: seq<Step>, i: nat, w: nat)
    requires IsRun(trace, steps) && i < |trace| && w < |trace[i].works|
    ensures var s := trace[i];
            && (s.works[w].data.On? <==> exists place :: w in At(s.lists, place))
            && (forall p, q :: w in At(s.lists, p) && w in At(s.lists, q) ==> p == q)
            && (forall p :: NoRepeat(At(s.lists, p)))
            && (s.works[w].data.On? ==> s.works[w].pending && s.works[w].stage == Free)
  {
    RunInv(trace, steps, i);
    var s := trace[i];
    assert WorkOk(s.pools, w in s.barriers, s.works[w]);
    forall p
      ensures NoRepeat(At(s.lists, p)) && (w in At(s.lists, p) ==> s.works[w].place == p && p != Nowhere)
    {
      assert ListOk(s.works, At(s.lists, p), p, s.linked, s.barriers);
    }
    if s.works[w].data.On? { assert w in At(s.lists, s.works[w].place); }
  }
}
