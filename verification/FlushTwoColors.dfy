/**
 How many colours the cascade needs.

 After completing the flushers of the finished colour, the cascade keeps using the
 list cursor of that loop as "the next flusher".  The cursor is a flusher only if the
 loop stopped at one.  With three or more colours it always does; with two colours the
 queue can run empty while the overflow list is not, and the cursor is then the list
 head itself.
 */
module FlushTwoColors {
  import opened Maybe
  import opened FlushProtocol
  import opened FlushSafety

  function S0(): State {
    State(2, [Pwq(0, -1, [0, 0])], 0, 0, 0, None, [], [], map[], Unlocked, false, {}, false, false,
          History(map[], {}, map[], map[], 0, 0, [0]))
  }
  function S1(): State { S0().(pwqs := [Pwq(0, -1, [1, 0])], h := S0().h.(live := map[0 := Item(0, 0, 0)])) }
  function S2(): State { S1().(h := S1().h.(before := map[0 := {0}])) }
  function S3(): State {
    S2().(workColor := 1, toFlush := 1, first := Some(0), colorOf := map[0 := 0],
          holder := Prep(0, true, true, false, StartedFirst), h := S2().h.(epochOf := map[0 := 0], workEpoch := 1))
  }
  function S4(): State {
    S3().(pwqs := [Pwq(1, 0, [1, 0])], toFlush := 2, holder := Prep(1, true, true, true, StartedFirst),
          h := S3().h.(pwqEpoch := [1]))
  }
  function S5(): State { S4().(toFlush := 1, holder := Unlocked) }
  function S6(): State { S5().(h := S5().h.(before := map[0 := {0}, 1 := {0}])) }
  function S7(): State { S6().(overflow := [1]) }
  function S8(): State {
    S7().(pwqs := [Pwq(1, -1, [0, 0])], toFlush := 0, wake := true, h := S7().h.(live := map[], retired := {0}))
  }
  function S9(): State { S8().(wake := false, done := {0}) }
  function S10(): State { S9().(first := None, holder := CascadeTop) }
  function S11(): State {
    S10().(flushColor := 1, workColor := 0, queue := [Waiting(1, 1)], overflow := [], colorOf := map[0 := 0, 1 := 1],
           holder := Prep(0, false, true, false, Spliced(None)),
           h := S10().h.(epochOf := map[0 := 0, 1 := 1], flushEpoch := 1, workEpoch := 2))
  }
  function S12(): State {
    S11().(pwqs := [Pwq(0, -1, [0, 0])], holder := Prep(1, false, true, false, Spliced(None)),
           h := S11().h.(pwqEpoch := [2]))
  }
  function S13(): State { S12().(holder := CascadeNext(None)) }
  function S14(): State { S13().(strayed := true) }

  predicate Moves(s: State, step: Step, t: State) { Enabled(s, step) && Apply(s, step) == t }

  lemma QueuesItem0()
    ensures Init(S0())
    ensures Moves(S0(), QueueWork(0, 0), S1())
  {
    assert S0().pwqs[0].inFlight == seq(2, _ => 0);
    assert seq(1, _ => 0) == [0];
    assert [0, 0][0 := 1] == [1, 0];
    assert Apply(S0(), QueueWork(0, 0)).pwqs == S1().pwqs;
  }

  lemma Flush0Called()
    ensures Moves(S1(), CallFlush(0), S2())
  {
    assert S1().h.live.Keys == {0};
  }

  lemma Flush0Starts()
    ensures Moves(S2(), StartFlush(0), S3())
  {
  }

  lemma Flush0Arms()
    ensures Moves(S3(), PrepPwq, S4()) && Moves(S4(), EndPrep, S5())
  {
    assert Apply(S3(), PrepPwq).pwqs == S4().pwqs;
    assert Apply(S3(), PrepPwq).h.pwqEpoch == [1];
  }

  lemma Flush1Overflows()
    ensures Moves(S5(), CallFlush(1), S6()) && Moves(S6(), StartFlush(1), S7())
  {
    assert S5().h.live.Keys == {0};
  }

  lemma Item0Ends()
    ensures Moves(S7(), Retire(0), S8())
  {
    assert Apply(S7(), Retire(0)).h.live == S8().h.live;
    assert [1, 0][0 := 0] == [0, 0];
    assert Apply(S7(), Retire(0)).pwqs == S8().pwqs;
  }

  lemma Flush0Wakes()
    ensures Moves(S8(), CompleteFirst, S9()) && Moves(S9(), WakeFlusher(0), S10())
  {
  }

  lemma OverflowSpliced()
    ensures Moves(S10(), CascadeComplete, S11())
  {
    var t := Apply(S10(), CascadeComplete);
    assert LeadLength(S10().queue, 0) == 0;
    assert t.queue == [Waiting(1, 1)];
    assert t.colorOf == S11().colorOf;
    assert t.h.epochOf == S11().h.epochOf;
    assert t.done == {0};
  }

  lemma CursorIsListHead()
    ensures Moves(S11(), PrepPwq, S12()) && Moves(S12(), EndPrep, S13()) && Moves(S13(), CascadeAdvance, S14())
  {
    assert Apply(S11(), PrepPwq).pwqs == S12().pwqs;
    assert Apply(S11(), PrepPwq).h.pwqEpoch == [2];
  }

  /** A run with first state `s0` and last state `s`. */
  predicate RunTo(trace: seq<State>, steps: seq<Step>, s0: State, s: State) {
    IsRun(trace, steps) && trace[0] == s0 && trace[|trace| - 1] == s
  }

  lemma Extend(trace: seq<State>, steps: seq<Step>, s0: State, s: State, step: Step, t: State)
    returns (trace2: seq<State>, steps2: seq<Step>)
    requires RunTo(trace, steps, s0, s) && Moves(s, step, t)
    ensures RunTo(trace2, steps2, s0, t)
  {
    trace2, steps2 := trace + [t], steps + [step];
    forall i | 0 <= i < |steps2|
      ensures IsStep(trace2, steps2, i)
    {
      if i < |steps| { assert IsStep(trace, steps, i); }
    }
  }

  /** Two colours and one pwq: flusher 1 overflows while flusher 0 waits. */
  lemma FillsRing() returns (trace: seq<State>, steps: seq<Step>)
    ensures RunTo(trace, steps, S0(), S7())
  {
    QueuesItem0();
    trace, steps := [S0()], [];
    trace, steps := Extend(trace, steps, S0(), S0(), QueueWork(0, 0), S1());
    Flush0Called();
    trace, steps := Extend(trace, steps, S0(), S1(), CallFlush(0), S2());
    Flush0Starts();
    trace, steps := Extend(trace, steps, S0(), S2(), StartFlush(0), S3());
    Flush0Arms();
    trace, steps := Extend(trace, steps, S0(), S3(), PrepPwq, S4());
    trace, steps := Extend(trace, steps, S0(), S4(), EndPrep, S5());
    Flush1Overflows();
    trace, steps := Extend(trace, steps, S0(), S5(), CallFlush(1), S6());
    trace, steps := Extend(trace, steps, S0(), S6(), StartFlush(1), S7());
  }

  /** Then the item ends, flusher 0 cascades, and the cursor it follows is the list head. */
  lemma TwoColorsStray() returns (trace: seq<State>, steps: seq<Step>)
    ensures RunTo(trace, steps, S0(), S14())
    ensures S0().colors == 2 && S14().strayed
  {
    trace, steps := FillsRing();
    Item0Ends();
    trace, steps := Extend(trace, steps, S0(), S7(), Retire(0), S8());
    Flush0Wakes();
    trace, steps := Extend(trace, steps, S0(), S8(), CompleteFirst, S9());
    trace, steps := Extend(trace, steps, S0(), S9(), WakeFlusher(0), S10());
    OverflowSpliced();
    trace, steps := Extend(trace, steps, S0(), S10(), CascadeComplete, S11());
    CursorIsListHead();
    trace, steps := Extend(trace, steps, S0(), S11(), PrepPwq, S12());
    trace, steps := Extend(trace, steps, S0(), S12(), EndPrep, S13());
    trace, steps := Extend(trace, steps, S0(), S13(), CascadeAdvance, S14());
  }

  ghost predicate SomeRunStrays(n: nat) {
    exists trace: seq<State>, steps: seq<Step> ::
      IsRun(trace, steps) && trace[0].colors == n && trace[|trace| - 1].strayed
  }

  /** The cascade follows a stale list cursor in some run exactly when there are only two colours. */
  lemma StraysIffTwoColors(n: nat)
    requires n >= 2
    ensures SomeRunStrays(n) <==> n == 2
  {
    if n == 2 {
      var trace, steps := TwoColorsStray();
    } else if SomeRunStrays(n) {
      var trace: seq<State>, steps: seq<Step> :|
        IsRun(trace, steps) && trace[0].colors == n && trace[|trace| - 1].strayed;
      RunInv(trace, steps, |trace| - 1);
      ColorsFixed(trace, steps, |trace| - 1);
      assert false;
    }
  }
}
