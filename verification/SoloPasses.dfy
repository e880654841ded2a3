/** One thread stopped at a breakpoint, whatever its next instruction is: when the first
    resume of `cont` executes that instruction exactly once. */
module SoloPasses {
  import opened Words
  import opened Machine
  import opened Overlay
  import opened Engine
  import opened Transparency
  import opened Stops
  import opened Session
  import opened Solo
  import opened Passes

  /** Only thread `x` gets turns. */
  predicate Alone(env: Env, x: Tid) {
    forall y :: y in env.sched ==> y == x
  }

  lemma AloneRepeats(sched: seq<Tid>, x: Tid)
    requires forall y :: y in sched ==> y == x
    ensures sched == Rep(x, |sched|)
  {
    if sched != [] {
      assert sched == [sched[0]] + sched[1..] && sched[0] in sched;
      assert forall y :: y in sched[1..] ==> y in sched;
      AloneRepeats(sched[1..], x);
    }
  }

  /** In the patched target the thread takes exactly the turns of `StintLen`, however the
      resume ends. */
  lemma {:induction false} AloneRuns(isa: Isa, s: State, saved: Memory, x: Tid, k: nat)
    requires Decodable(isa) && WellFormed(s) && Armed(s.mem, saved)
    requires CleanRun(isa, TrueState(s, saved), saved.Keys, Effective(isa, s, saved, Rep(x, k)))
    ensures Effective(isa, s, saved, Rep(x, k)) == Rep(x, StintLen(isa, TrueState(s, saved), x, saved.Keys, k))
    decreases k
  {
    hide Decodable, Armed, CleanRun, Step, TrueState, Moves, Halts, Effective, Run;
    MovesIffRuns(s, saved, x);
    if Moves(s, saved, x) && k > 0 {
      var s' := Step(isa, s, x);
      var rest := Effective(isa, s', saved, Rep(x, k - 1));
      SoloUnrolls(isa, s, saved, x, k);
      CleanRunHead(isa, TrueState(s, saved), saved.Keys, x, rest);
      StepKeepsShape(isa, s, x);
      MoveIsTrue(isa, s, saved, x);
      AloneRuns(isa, s', saved, x, k - 1);
    } else if k > 0 {
      SoloStuck(isa, s, saved, x, k);
    } else {
      NoTurns(isa, s, saved);
    }
  }

  lemma NoTurns(isa: Isa, s: State, saved: Memory)
    ensures Effective(isa, s, saved, []) == []
  {
  }

  lemma ExecutedAlone(isa: Isa, d: Dbg, env: Env, x: Tid)
    requires Decodable(isa) && TableOk(d) && CleanRun(isa, View(d), d.bps.Keys, Executed(isa, d, env)) && Alone(env, x)
    ensures Executed(isa, d, env) == Rep(x, StintLen(isa, View(d), x, d.bps.Keys, |env.sched|))
  {
    SavedIsTable(d);
    SettledIsView(d);
    AloneRepeats(env.sched, x);
    AloneRuns(isa, Settle(d.target), Saved(d.bps), x, |env.sched|);
  }

  // ---------- how often the thread is at an address

  function PcAfter(isa: Isa, u: State, x: Tid, i: nat): Option<Word> {
    var u1 := After(isa, u, x, i);
    if Runs(u1, x) then Some(u1.threads[x].pc) else None
  }

  lemma PcAfterSteps(isa: Isa, u: State, x: Tid, i: nat)
    ensures PcAfter(isa, u, x, i + 1) == PcAfter(isa, Step(isa, u, x), x, i)
  {
    RepStep(isa, u, x, i + 1);
  }

  lemma {:induction false} NeverAtIff(isa: Isa, u: State, x: Tid, n: nat, a: Word)
    ensures TurnsAt(isa, u, Rep(x, n), a) == 0 <==> forall i: nat :: i < n ==> PcAfter(isa, u, x, i) != Some(a)
    decreases n
  {
    if n > 0 {
      var u1 := Step(isa, u, x);
      RepStep(isa, u, x, n);
      NeverAtIff(isa, u1, x, n - 1, a);
      assert PcAfter(isa, u, x, 0) == if Runs(u, x) then Some(u.threads[x].pc) else None;
      hide PcAfter, Step;
      forall i: nat | i + 1 < n
        ensures PcAfter(isa, u, x, i + 1) == PcAfter(isa, u1, x, i)
      {
        PcAfterSteps(isa, u, x, i);
      }
      if TurnsAt(isa, u, Rep(x, n), a) == 0 {
        forall i: nat | i < n
          ensures PcAfter(isa, u, x, i) != Some(a)
        {
          if i > 0 {
            assert PcAfter(isa, u, x, i) == PcAfter(isa, u1, x, i - 1);
          }
        }
      }
    }
  }

  /** The thread is not back at `a` before it reaches an address in `off`, or its turns are
      over. */
  predicate Leaves(isa: Isa, u: State, x: Tid, off: set<Word>, k: nat, a: Word) {
    var n := StintLen(isa, u, x, off, k);
    n > 0 && forall i: nat :: 0 < i < n ==> PcAfter(isa, u, x, i) != Some(a)
  }

  lemma LeavesIff(isa: Isa, u: State, x: Tid, off: set<Word>, k: nat, a: Word)
    requires Runs(u, x) && u.threads[x].pc == a
    ensures TurnsAt(isa, u, Rep(x, StintLen(isa, u, x, off, k)), a) == 1 <==> Leaves(isa, u, x, off, k, a)
  {
    var n := StintLen(isa, u, x, off, k);
    if n > 0 {
      var u1 := Step(isa, u, x);
      RepStep(isa, u, x, n);
      NeverAtIff(isa, u1, x, n - 1, a);
      hide PcAfter, Step, StintLen;
      forall i: nat | i + 1 < n
        ensures PcAfter(isa, u, x, i + 1) == PcAfter(isa, u1, x, i)
      {
        PcAfterSteps(isa, u, x, i);
      }
      assert forall i: nat :: 0 < i < n ==> PcAfter(isa, u, x, i) == PcAfter(isa, u1, x, i - 1) by {
        forall i: nat | 0 < i < n
          ensures PcAfter(isa, u, x, i) == PcAfter(isa, u1, x, i - 1)
        {
          PcAfterSteps(isa, u, x, i - 1);
        }
      }
    }
  }

  // ---------- `cont` at a breakpoint

  /** The one thread, wherever its instruction leads: the breakpoint it is stepped over is
      passed exactly once if and only if, after leaving it, the thread reaches a temporary
      or another breakpoint before it is back. */
  lemma PassedOnceIff(p: Platform, d: Dbg, x: Tid, e1: Env, e2: Env)
    requires Decodable(p.isa) && Consistent(d) && d.at.Some? && d.threads == [x]
    requires GoodCont(p, d, e1, e2) && Alone(e1, x)
    ensures TurnsOver(p.isa, View(d), ContRuns(p, d, e1, e2), d.at.value) == 1
       <==> Leaves(p.isa, View(d), x, SteppingAt(p, d).bps.Keys, |e1.sched|, d.at.value)
  {
    assert d.at.value in d.bps;
    SoleThread(d, x);
    assert Runs(View(d), x);
    hide Decodable, Consistent, View, GoodCont, Executed, SteppingAt, TurnsAt, TurnsOver, ContRuns, Leaves, StintLen;
    PassesOnlyAtStop(p, d, e1, e2, d.at.value);
    FirstAlone(p, d, x, e1, e2);
    LeavesIff(p.isa, View(d), x, SteppingAt(p, d).bps.Keys, |e1.sched|, d.at.value);
  }

  lemma FirstAlone(p: Platform, d: Dbg, x: Tid, e1: Env, e2: Env)
    requires Decodable(p.isa) && Consistent(d) && d.at.Some? && GoodCont(p, d, e1, e2) && Alone(e1, x)
    ensures Executed(p.isa, SteppingAt(p, d), e1)
         == Rep(x, StintLen(p.isa, View(d), x, SteppingAt(p, d).bps.Keys, |e1.sched|))
  {
    SteppingShows(p, d);
    hide Decodable, Consistent, View, TableOk, Executed, CleanRun, StintLen;
    ExecutedAlone(p.isa, SteppingAt(p, d), e1, x);
  }

  /** An instruction that leads to a candidate other than itself leaves at once: the
      temporary breakpoint there ends the first resume. */
  lemma SteppableLeaves(p: Platform, d: Dbg, x: Tid, e1: Env)
    requires Decodable(p.isa) && Consistent(d) && d.at.Some? && Steppable(p, d, x) && !Stalls(p, d)
    requires TrapEnv(e1, x) && |e1.sched| >= 2
    ensures GoodStepI(p, d, e1)
    ensures Leaves(p.isa, View(d), x, SteppingAt(p, d).bps.Keys, |e1.sched|, d.at.value)
  {
    DisarmedSteppable(p, d, x);
    var d1 := Disarmed(d.(at := None), d.at.value);
    hide Decodable, Consistent, View, Steppable, Stalls, Executed, Prepared, Disarmed, StintLen, SelfStop;
    hide ArmedWhileStepping, GoodStep;
    PreparedStop(p, d1, x, e1);
    StepLen(p, d1, x, |e1.sched|);
    SelfStopIsGood(p.isa, SteppingAt(p, d), x, e1);
  }
}
