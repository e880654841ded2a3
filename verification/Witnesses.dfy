/** One concrete input for each promise the engine does not keep; the exact conditions
    stand with the theorems about the operations. */
module Witnesses {
  import opened Words
  import opened Machine
  import opened Disasm
  import opened Engine
  import opened Transparency
  import opened Stops
  import opened Session
  import opened Solo
  import opened Defects
  import opened Walkthrough

  const RET: Byte := 0xC3

  /** A second `set_breakpoint` at 100: the user is shown `int3` there from now on. */
  lemma SetTwiceShowsPatch()
    ensures Consistent(AtFirst()) && View(AtFirst()).mem[100] == NOP
    ensures var (d, ok) := SetBp(AtFirst(), 100); ok && 100 in View(d).mem && View(d).mem[100] == 0xCC
  {
    FirstView();
    var d := SetBp(AtFirst(), 100).0;
    assert Saved(d.bps)[100] == INT3;
    hide Consistent;
  }

  /** A write over the breakpoint at 100: the patch is gone, and so is the written byte. */
  lemma WriteIsLost()
    ensures RangeMapped(AtFirst().target.mem, 100, 1)
    ensures var (d, ok) := WriteMem(AtFirst(), 100, [RET]);
      ok && 100 in d.bps && 100 in View(d).mem && View(d).mem[100] == NOP && d.target.mem[100] == RET
  {
    var d := WriteMem(AtFirst(), 100, [RET]).0;
    assert Saved(d.bps)[100] == NOP;
    assert d.target.mem[100] == RET;
  }

  /** The breakpoint at the PC was set where the target already stood: `step` executes
      nothing. */
  lemma StepsNowhere()
    ensures var d := AtFirst().(at := None);
      && Consistent(d) && Steppable(Nops(), d, 1)
      && View(StepI(Nops(), d, Turns(2)).0) == View(d) == ProgramAt(100)
  {
    FirstView();
    FirstIsSteppable();
    NopsDecode();
    var d := AtFirst().(at := None);
    TakeAt(AtFirst());
    SameCandidates(Nops(), AtFirst(), d, 100);
    Settled(100);
    hide Decodable, NopIsa, Nops, Consistent, View, Candidates, StepI, Clean, Step, Settle;
    StepIExact(Nops(), d, 1, Turns(2));
    assert After(Nops().isa, ProgramAt(100), 1, 0) == ProgramAt(100);
  }

  /** The same at a recorded stop, at an instruction that may jump to itself. */
  function Loops(): Platform {
    Platform(NopIsa(), code => Some(Insn(1, "loop", Some(100))))
  }

  lemma LoopTargets()
    ensures Candidates(Loops(), AtFirst(), 100) == [100, 101]
  {
    assert "loop" <= "loop";
  }

  lemma LoopSteppable()
    ensures Steppable(Loops(), AtFirst(), 1) && Stalls(Loops(), AtFirst())
  {
    LoopTargets();
    assert 100 in [100, 101] && 101 in [100, 101];
    hide Candidates, Steppable, Stalls;
    SteppableWith(Loops(), [100, 101]);
  }

  lemma LoopsNowhere()
    ensures Steppable(Loops(), AtFirst(), 1) && AtFirst().at == Some(100)
    ensures View(StepI(Loops(), AtFirst(), Turns(2)).0) == View(AtFirst()) == ProgramAt(100)
  {
    FirstView();
    LoopSteppable();
    NopsDecode();
    Settled(100);
    hide Decodable, NopIsa, Consistent, View, Candidates, StepI, Steppable, Stalls, Settle;
    StepIExact(Loops(), AtFirst(), 1, Turns(2));
    assert After(Loops().isa, ProgramAt(100), 1, 0) == ProgramAt(100);
  }

  // ---------- the end of the target

  function Exits(): Env {
    Env([], [], ExitEvent(0))
  }

  function Killed(): Env {
    Env([], [], KillEvent(9))
  }

  /** The target exits with status 0 while `cont` steps over the breakpoint at 100: an
      error, and the breakpoint is out of the table. */
  lemma ExitIsAnError(e2: Env)
    ensures var (d, out) := Cont(Nops(), AtFirst(), Exits(), e2); out == Failed && 100 !in d.bps
  {
    FirstView();
    NopsDecode();
    TakeAt(AtFirst());
    var d := AtFirst().(at := None);
    DisarmedInvisible(d, 100);
    hide NopIsa, Nops, Consistent, View, Disarmed, StepOver, Prepared;
    assert Executed(Nops().isa, Prepared(Nops(), Disarmed(d, 100)), Exits()) == [];
    StepOverTransparent(Nops(), d, 100, Exits());
  }

  lemma FirstClear()
    ensures 101 !in Footprint(NopIsa(), ProgramAt(100).mem, ProgramAt(100).threads[1])
    ensures 101 in AtFirst().target.mem && 101 !in AtFirst().bps && AtFirst().at.Some?
    ensures Step(NopIsa(), ProgramAt(100), 1) == ProgramAt(101)
  {
    NopSteps(100);
    hide Footprint, Step;
  }

  /** Stopped at 100, `finish` with the return address 101, killed by signal 9 in the
      second resume: the next `cont` aborts. */
  lemma ContAborts(f1: Env, f2: Env)
    ensures Cont(Nops(), RunTo(Nops(), AtFirst(), 101, Turns(2), Killed()).0, f1, f2).1 == Panicked
  {
    FirstView();
    FirstIsSteppable();
    FirstClear();
    NopsDecode();
    hide Decodable, NopIsa, Nops, Consistent, View, Steppable, Stalls, Cont, RunTo, Footprint, Step;
    AbortsAfterKillIff(Nops(), AtFirst(), 1, 101, Turns(2), Killed(), f1, f2);
  }

  /** The session with a third breakpoint, on the instruction the thread goes to next. */
  function NextArmed(): Dbg {
    SetBp(AtFirst(), 101).0
  }

  /** `cont` from 100, killed by signal 9 in the second resume; then the breakpoint at 101
      is deleted, with an error, and the next `cont` aborts. */
  lemma DeleteAborts(f1: Env, f2: Env)
    ensures Consistent(NextArmed()) && NextArmed().at == Some(100) && 101 in NextArmed().bps
    ensures var d := Cont(Nops(), NextArmed(), Turns(2), Killed()).0;
      Cont(Nops(), RemoveBp(d, 101).0, f1, f2).1 == Panicked
  {
    FirstView();
    FirstIsSteppable();
    FirstClear();
    NopsDecode();
    assert FinishBase(AtFirst(), 101) == NextArmed();
    hide Decodable, NopIsa, Nops, Consistent, View, Steppable, Stalls, Cont, RemoveBp, Footprint;
    hide Step, NextArmed, AtFirst;
    FinishSteppable(Nops(), AtFirst(), 1, 101);
    FinishBaseSame(AtFirst(), 101);
    AbortsAfterKillDeleteIff(Nops(), NextArmed(), 1, 101, Turns(2), Killed(), f1, f2);
  }

  // ---------- stops

  /** The thread runs into its breakpoint, but the stop is reported with another signal. */
  function Interrupted(): Env {
    Env([1], [1], StopEvent(2))
  }

  lemma InterruptedRaw()
    ensures Raw(NopIsa(), AtFirst(), Interrupted()) == State(Patched(), map[1 := At(101)], {1})
    ensures Executed(NopIsa(), AtFirst(), Interrupted()) == []
  {
    SavedBytes();
    var s := Settle(AtFirst().target);
    assert Interrupted().sched[1..] == [];
    assert Step(NopIsa(), s, 1) == State(Patched(), map[1 := At(101)], {1});
  }

  /** Nothing was executed, yet the thread is shown after its breakpoint, not at it. */
  lemma InterruptedNotRewound()
    ensures Executed(NopIsa(), AtFirst(), Interrupted()) == [] && View(AtFirst()).threads == map[1 := At(100)]
    ensures 1 in Stint(NopIsa(), AtFirst(), Interrupted()).target.threads
    ensures Stint(NopIsa(), AtFirst(), Interrupted()).target.threads[1].pc == 101
  {
    FirstView();
    InterruptedRaw();
    assert TableOk(AtFirst());
    hide Raw, Executed, Stint, View, Consistent, TableOk;
    ShownRegs(NopIsa(), AtFirst(), Interrupted(), 1);
  }

  /** Thread 1 stopped at the breakpoint at 100, thread 2 somewhere else. */
  function TwoAtHit(): Dbg {
    Dbg(true, State(map[100 := INT3, 101 := NOP, 300 := NOP], map[1 := At(100), 2 := At(300)], {}),
        map[100 := Bp(true, [NOP])], Some(100), [1, 2], 0, Some(Stopped(SIGTRAP, 100)))
  }

  lemma HitConsistent()
    ensures Consistent(TwoAtHit())
  {
    assert ListsExactly([1, 2], TwoAtHit().target.threads);
  }

  /** The user selects thread 2; what `step` forces to 100 is then thread 2's PC. */
  lemma SelectedIsMoved()
    ensures Consistent(TwoAtHit()) && CurrentPc(TwoAtHit()) == 100
    ensures var (d, ok) := Select(TwoAtHit(), 1);
      var d1 := Disarmed(d.(at := None), 100);
      && ok && CurrentPc(d) == 300 && CurrentRegs(d1) == Some(At(300))
      && 2 in ForcePc(d1, 100).target.threads && ForcePc(d1, 100).target.threads[2].pc == 100
      && StepOver(Nops(), d.(at := None), 100, Exits()) == StepAndRearm(Nops(), d1, 100, Exits())
  {
    HitConsistent();
    hide Consistent, StepAndRearm;
  }
}
