/**
 The traversal with an explicit stack that frees or unlists a whole trie: each node is
 popped exactly once, and the stack of MAX_ALLOWEDIPS_DEPTH slots is never exceeded, although
 there are tries that fill it to the last slot.
 */
module TrieWalk {
  import opened Maybe
  import opened TrieShape
  import opened TrieLookup

  /** One round: the top node goes, its children come, bit 0 first. */
  function PushKids(stack: seq<Id>, n: Node): seq<Id> {
    stack + (if n.bit0.Some? then [n.bit0.value] else []) + (if n.bit1.Some? then [n.bit1.value] else [])
  }

  /** The parent of n has been popped, or n is a root. */
  predicate ParentIn(t: Trie, done: set<Id>, n: Id)
    requires n in t.nodes
  {
    t.nodes[n].parent.ChildSlot? ==> t.nodes[n].parent.node in done
  }

  predicate Distinct(s: seq<Id>) { forall i, j :: 0 <= i < j < |s| ==> s[i] != s[j] }

  predicate Member(t: Trie, width: nat, n: Id) { n in t.nodes && |t.nodes[n].bits| == width }

  ghost predicate Waiting(t: Trie, width: nat, stack: seq<Id>, done: set<Id>) {
    forall n :: n in stack ==> Member(t, width, n) && n !in done && ParentIn(t, done, n)
  }

  ghost predicate Popped(t: Trie, width: nat, done: set<Id>) {
    forall n :: n in done ==> Member(t, width, n) && ParentIn(t, done, n)
  }

  ghost predicate Ahead(t: Trie, width: nat, stack: seq<Id>, done: set<Id>) {
    forall n :: Member(t, width, n) && n !in done && n !in stack ==> !ParentIn(t, done, n)
  }

  ghost predicate Bounded(t: Trie, stack: seq<Id>) {
    forall i :: 0 <= i < |stack| ==> stack[i] in t.nodes && i <= t.nodes[stack[i]].cidr
  }

  /** What the traversal of one trie keeps. */
  ghost predicate Walking(t: Trie, width: nat, stack: seq<Id>, done: set<Id>) {
    && Distinct(stack) && Waiting(t, width, stack, done) && Popped(t, width, done)
    && Ahead(t, width, stack, done) && Bounded(t, stack)
  }

  lemma WalkStarts(t: Trie, width: nat, root: Id)
    requires Linked(t) && Root(t, width) == Some(root)
    ensures Walking(t, width, [root], {})
  {
    assert SlotOk(t, RootSlot(width));
    forall n | Member(t, width, n) && n != root
      ensures !ParentIn(t, {}, n)
    {
      assert HeldOk(t, n) && SlotOk(t, t.nodes[n].parent);
    }
  }

  /** What the two pushes add to the popped stack. */
  ghost function Kids(n: Node): seq<Id> { PushKids([], n) }

  lemma KidsAre(t: Trie, n: Id)
    requires Linked(t) && n in t.nodes
    ensures forall c ::
              c in Kids(t.nodes[n]) <==> c in t.nodes && t.nodes[c].parent.ChildSlot? && t.nodes[c].parent.node == n
    ensures Distinct(Kids(t.nodes[n])) && |Kids(t.nodes[n])| <= 2
    ensures forall c :: c in Kids(t.nodes[n]) ==>
              |t.nodes[c].bits| == |t.nodes[n].bits| && t.nodes[n].cidr < t.nodes[c].cidr <= |t.nodes[c].bits|
  {
    var node := t.nodes[n];
    if node.bit0.Some? { KidIn(t, n, false); }
    if node.bit1.Some? { KidIn(t, n, true); }
    forall c | c in t.nodes && t.nodes[c].parent.ChildSlot? && t.nodes[c].parent.node == n
      ensures c in Kids(node)
    {
      assert HeldOk(t, c);
      assert Kid(node, t.nodes[c].parent.bit) == Some(c);
    }
  }

  lemma WalkSteps(t: Trie, width: nat, rest: seq<Id>, n: Id, done: set<Id>)
    requires Linked(t) && Walking(t, width, rest + [n], done) && n in t.nodes
    ensures Walking(t, width, rest + Kids(t.nodes[n]), done + {n})
  {
    var stack, stack', done' := rest + [n], rest + Kids(t.nodes[n]), done + {n};
    KidsAre(t, n);
    assert stack[|rest|] == n && n in stack;
    assert forall x :: x in rest ==> x in stack;
    StepDistinct(t, width, rest, n, done);
    forall x | x in stack'
      ensures Member(t, width, x) && x !in done' && ParentIn(t, done', x)
    {
      if x in rest {
        assert exists i :: 0 <= i < |rest| && rest[i] == x;
      }
    }
    forall x | Member(t, width, x) && x !in done' && x !in stack'
      ensures !ParentIn(t, done', x)
    {
      assert x !in rest && x !in Kids(t.nodes[n]);
      assert x !in stack;
    }
    forall i | 0 <= i < |stack'|
      ensures stack'[i] in t.nodes && i <= t.nodes[stack'[i]].cidr
    {
      if i < |rest| { assert stack'[i] == stack[i]; } else { assert stack'[i] in Kids(t.nodes[n]); }
    }
  }

  lemma StepDistinct(t: Trie, width: nat, rest: seq<Id>, n: Id, done: set<Id>)
    requires Linked(t) && Walking(t, width, rest + [n], done) && n in t.nodes
    ensures Distinct(rest + Kids(t.nodes[n])) && n !in rest && n !in Kids(t.nodes[n])
  {
    var stack := rest + [n];
    KidsAre(t, n);
    assert stack[|rest|] == n;
    forall x | x in rest
      ensures x != n && x !in Kids(t.nodes[n])
    {
      var i :| 0 <= i < |rest| && rest[i] == x;
      assert stack[i] == x && x in stack && n in stack;
      assert ParentIn(t, done, x) && n !in done;
    }
    var kids := Kids(t.nodes[n]);
    forall i, j | 0 <= i < j < |rest + kids|
      ensures (rest + kids)[i] != (rest + kids)[j]
    {
      if j < |rest| {
        assert stack[i] != stack[j];
      } else if i < |rest| {
        assert rest[i] in rest && kids[j - |rest|] in kids;
      } else {
        assert kids[i - |rest|] != kids[j - |rest|];
      }
    }
  }

  /** When the stack is empty, every node of the trie has been popped. */
  lemma {:induction false} WalkEnds(t: Trie, width: nat, done: set<Id>, n: Id)
    requires Linked(t) && Walking(t, width, [], done) && Member(t, width, n)
    ensures n in done
    decreases t.nodes[n].cidr
  {
    assert HeldOk(t, n) && SlotOk(t, t.nodes[n].parent);
    if t.nodes[n].parent.ChildSlot? { WalkEnds(t, width, done, t.nodes[n].parent.node); }
  }

  /** The stack always fits, also while the children of the popped node are being pushed. */
  lemma WalkFits(t: Trie, width: nat, stack: seq<Id>, done: set<Id>)
    requires Linked(t) && Walking(t, width, stack, done)
    ensures |stack| <= MAX_DEPTH
  {
    if stack != [] {
      var top := stack[|stack| - 1];
      assert HeldOk(t, top);
    }
  }

  /** One round of the loop, all in one. */
  lemma WalkRound(t: Trie, width: nat, rest: seq<Id>, n: Id, done: set<Id>)
    requires Linked(t) && Walking(t, width, rest + [n], done)
    ensures n in t.nodes && n !in done
    ensures Walking(t, width, rest + Kids(t.nodes[n]), done + {n}) && |rest| + |Kids(t.nodes[n])| <= MAX_DEPTH
  {
    assert (rest + [n])[|rest|] == n && n in rest + [n];
    WalkSteps(t, width, rest, n, done);
    WalkFits(t, width, rest + Kids(t.nodes[n]), done + {n});
  }

  // ---------------------------------------------------------------- the bound is tight

  /** All ones, but for bit i. */
  function OnesBut(i: int): seq<bool> { seq(128, j => j != i) }

  /** Node 2i is the fork at depth i on the all-ones side; node 2i + 1 is its leaf on the zero side. */
  function CombNode(n: nat): Node {
    if n % 2 == 1 then Node(Some(0), None, None, n / 2 + 1, OnesBut(n / 2), ChildSlot(n - 1, false))
    else if n == 256 then Node(Some(0), None, None, 128, OnesBut(-1), ChildSlot(254, true))
    else
      Node(None, Some(n + 1), Some(n + 2), n / 2, OnesBut(-1), if n == 0 then RootSlot(128) else ChildSlot(n - 2, true))
  }

  function Comb(): Trie { Trie(map n: nat | 0 <= n <= 256 :: CombNode(n), map[128 := 0]) }

  lemma CombBelow(n: nat)
    requires n < 256 && n % 2 == 0
    ensures Below(CombNode(n), false, CombNode(n + 1)) && Below(CombNode(n), true, CombNode(n + 2))
  {
    var i := n / 2;
    assert OnesBut(i)[..i] == OnesBut(-1)[..i];
  }

  lemma CombSlot(s: Slot)
    requires SlotIn(Comb(), s)
    ensures SlotOk(Comb(), s)
  {
    if s.ChildSlot? && s.node % 2 == 0 && s.node < 256 { CombBelow(s.node); }
  }

  lemma CombHeld(n: Id)
    requires n in Comb().nodes
    ensures HeldOk(Comb(), n)
  {
  }

  lemma CombOk()
    ensures TrieOk(Comb())
  {
    forall s | SlotIn(Comb(), s) ensures SlotOk(Comb(), s) { CombSlot(s); }
    forall n | n in Comb().nodes ensures HeldOk(Comb(), n) { CombHeld(n); }
    CombForked();
  }

  lemma CombForked()
    ensures Forked(Comb())
  {
  }

  function Round(t: Trie, stack: seq<Id>): seq<Id> {
    if stack == [] || stack[|stack| - 1] !in t.nodes then []
    else PushKids(stack[..|stack| - 1], t.nodes[stack[|stack| - 1]])
  }

  function Rounds(t: Trie, root: Id, k: nat): seq<Id> {
    if k == 0 then [root] else Round(t, Rounds(t, root, k - 1))
  }

  function CombStack(k: nat): seq<Id> { seq(k, j requires 0 <= j => 2 * j + 1) + [2 * k] }

  lemma CombRound(k: nat)
    requires k < 128
    ensures Round(Comb(), CombStack(k)) == CombStack(k + 1)
  {
    var s := CombStack(k);
    assert s[|s| - 1] == 2 * k && s[..k] == seq(k, j requires 0 <= j => 2 * j + 1);
    assert seq(k + 1, j requires 0 <= j => 2 * j + 1) == s[..k] + [2 * k + 1];
  }

  /** Round by round the traversal of the comb leaves one more leaf behind. */
  lemma {:induction false} CombRounds(k: nat)
    requires k <= 128
    ensures Rounds(Comb(), 0, k) == CombStack(k)
  {
    if k == 0 {
      assert CombStack(0) == [0];
    } else {
      CombRounds(k - 1);
      CombRound(k - 1);
    }
  }

  /** There is a well-formed trie whose traversal, begun at its root, fills the whole stack. */
  lemma WalkFillsStack()
    ensures TrieOk(Comb()) && Root(Comb(), 128) == Some(0) && |Rounds(Comb(), 0, 128)| == MAX_DEPTH
  {
    CombOk();
    CombRounds(128);
  }
}
