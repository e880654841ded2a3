/** One concrete session, from one breakpoint to the next: the conditions of the theorems
    can be met, and this is what they say there. */
module Walkthrough {
  import opened Words
  import opened Machine
  import opened Overlay
  import opened Disasm
  import opened Engine
  import opened Transparency
  import opened Session
  import opened Solo
  import opened Defects
  import opened Reports

  function Nops(): Platform {
    Platform(NopIsa(), code => Some(Insn(1, "nop", None)))
  }

  /** Four instructions, and a stack at 0 with the word 103 on top. */
  function Program(): Memory {
    map[0 := 103, 1 := 0, 2 := 0, 3 := 0, 4 := 0, 5 := 0, 6 := 0, 7 := 0,
        100 := NOP, 101 := NOP, 102 := NOP, 103 := NOP]
  }

  function ProgramAt(pc: Word): State {
    State(Program(), map[1 := At(pc)], {})
  }

  function Patched(): Memory {
    Program()[100 := INT3][102 := INT3]
  }

  function Table(): map<Word, Bp> {
    map[100 := Bp(true, [NOP]), 102 := Bp(true, [NOP])]
  }

  /** Stopped at the breakpoint at 100, with another one at 102. */
  function AtFirst(): Dbg {
    Dbg(true, State(Patched(), map[1 := At(100)], {}), Table(), Some(100), [1], 0, Some(Stopped(SIGTRAP, 100)))
  }

  lemma SavedBytes()
    ensures Saved(Table()) == map[100 := NOP, 102 := NOP]
  {
  }

  lemma PatchesHidden()
    ensures Patched() + map[100 := NOP, 102 := NOP] == Program()
  {
  }

  function Turns(n: nat): Env {
    Env(Rep(1, n), [1], StopEvent(SIGTRAP))
  }

  lemma FirstShows()
    ensures View(AtFirst()) == ProgramAt(100)
    ensures CurrentRegs(AtFirst()) == Some(At(100)) && CurrentPc(AtFirst()) == 100
  {
    SavedBytes();
    PatchesHidden();
    hide Saved, Table;
  }

  lemma FirstView()
    ensures Consistent(AtFirst()) && View(AtFirst()) == ProgramAt(100)
    ensures CurrentRegs(AtFirst()) == Some(At(100)) && CurrentPc(AtFirst()) == 100
  {
    FirstShows();
    hide View, Saved;
    var d := AtFirst();
    assert TableOk(d);
    assert WellFormed(d.target) && ListsExactly(d.threads, d.target.threads);
    assert AtIsCurrent(d);
  }

  lemma NopSteps(pc: Word)
    requires 100 <= pc <= 102
    ensures Step(NopIsa(), ProgramAt(pc), 1) == ProgramAt(pc + 1)
    ensures Footprint(NopIsa(), Program(), At(pc)) == {pc}
  {
    assert pc in Program() && Program()[pc] == NOP;
    hide Program;
    assert |Code(NopIsa(), Program(), pc)| == 1;
    assert Plus(pc, 0) == pc;
    var u' := Step(NopIsa(), ProgramAt(pc), 1);
    assert u'.threads == map[1 := At(pc + 1)];
  }

  lemma FirstClean(armed: set<Word>)
    requires 100 !in armed
    ensures Clean(NopIsa(), ProgramAt(100), armed, 1)
  {
    NopSteps(100);
    hide Footprint, NopIsa;
  }

  /** The clauses of `Steppable`, one by one. */
  lemma IsSteppable(p: Platform, d: Dbg, t: Tid, u: State, pc: Word, candidates: seq<Word>)
    requires View(d) == u && CurrentRegs(d).Some? && CurrentPc(d) == pc && d.threads == [t]
    requires Candidates(p, d, pc) == candidates && pc in u.mem && u.mem[pc] != INT3
    requires var u' := Step(p.isa, u, t);
      u'.threads.Keys == {t} && u'.threads[t].pc in candidates && u'.threads[t].pc in u.mem
    requires Clean(p.isa, u, d.bps.Keys + Elems(candidates) - {pc}, t)
    ensures Steppable(p, d, t)
    ensures Stalls(p, d) <==> pc in candidates || (d.at.None? && pc in d.bps)
  {
    hide View, CurrentRegs, CurrentPc, Candidates, Step, Clean, Elems;
  }

  /** Whatever else the decoder suggests, the first instruction leads to a candidate. */
  lemma SteppableWith(p: Platform, candidates: seq<Word>)
    requires p.isa == NopIsa() && 101 in candidates && Candidates(p, AtFirst(), 100) == candidates
    ensures Steppable(p, AtFirst(), 1) && (Stalls(p, AtFirst()) <==> 100 in candidates)
  {
    FirstView();
    NopSteps(100);
    FirstClean(AtFirst().bps.Keys + Elems(candidates) - {100});
    hide Candidates, Consistent, View, CurrentRegs, CurrentPc, Step, Clean, Footprint, Steppable, Stalls, Elems, NopIsa;
    IsSteppable(p, AtFirst(), 1, ProgramAt(100), 100, candidates);
  }

  lemma FirstIsSteppable()
    ensures Steppable(Nops(), AtFirst(), 1) && !Stalls(Nops(), AtFirst())
  {
    assert Candidates(Nops(), AtFirst(), 100) == [101];
    hide Candidates, Steppable, Stalls;
    SteppableWith(Nops(), [101]);
  }

  lemma SecondStops(bps: set<Word>)
    requires 101 !in bps && 102 in bps
    ensures RunsToStop(NopIsa(), ProgramAt(101), bps, 1, Turns(3))
    ensures StintLen(NopIsa(), ProgramAt(101), 1, bps, 3) == 1
  {
    NopSteps(101);
    assert Turns(3).sched == Rep(1, 3) && |Rep(1, 3)| == 3;
    assert StintLen(NopIsa(), ProgramAt(102), 1, bps, 2) == 0;
    assert Rep(1, 1) == [1] && Rep(1, 1)[1..] == [];
    assert Run(NopIsa(), ProgramAt(102), []) == ProgramAt(102);
    assert After(NopIsa(), ProgramAt(101), 1, 1) == ProgramAt(102);
  }

  lemma TwoSteps()
    ensures After(NopIsa(), ProgramAt(100), 1, 1) == ProgramAt(101)
    ensures After(NopIsa(), ProgramAt(100), 1, 2) == ProgramAt(102)
  {
    NopSteps(100);
    NopSteps(101);
    RepStep(NopIsa(), ProgramAt(100), 1, 2);
    RepStep(NopIsa(), ProgramAt(100), 1, 1);
    RepStep(NopIsa(), ProgramAt(101), 1, 1);
  }

  lemma Settled(pc: Word)
    ensures Settle(ProgramAt(pc)) == ProgramAt(pc)
  {
  }

  lemma NopsDecode()
    ensures Decodable(NopIsa()) && Nops().isa == NopIsa()
  {
  }

  /** A stop after exactly two instructions is the stop at 102. */
  lemma SecondShows(bps: set<Word>, d': Dbg, out: Outcome)
    requires StopsFirst(NopIsa(), ProgramAt(100), bps, 1, 1, 2, d', out)
    ensures out == Done(Stopped(SIGTRAP, 102)) && d'.at == Some(102) && d'.bps.Keys == bps
    ensures View(d') == ProgramAt(102) && Consistent(d')
  {
    TwoSteps();
    Settled(102);
    hide View, Consistent, After, Settle;
  }

  /** From the breakpoint at 100, whatever else is armed beside 102. */
  lemma WalksOn(d: Dbg, bps: set<Word>)
    requires Consistent(d) && d.at == Some(100) && View(d) == ProgramAt(100) && d.bps.Keys == bps
    requires Steppable(Nops(), d, 1) && !Stalls(Nops(), d) && 101 !in bps && 102 in bps
    ensures var (d', out) := Cont(Nops(), d, Turns(2), Turns(3));
      && out == Done(Stopped(SIGTRAP, 102)) && d'.at == Some(102) && d'.bps.Keys == bps
      && View(d') == ProgramAt(102) && Consistent(d')
  {
    SecondStops(bps);
    TwoSteps();
    NopsDecode();
    hide Decodable, NopIsa, Nops, ProgramAt, View, Consistent, Steppable, Stalls, Cont, StintLen, RunsToStop;
    hide After, StopsFirst;
    ContExact(Nops(), d, 1, Turns(2), Turns(3));
    var (d', out) := Cont(Nops(), d, Turns(2), Turns(3));
    SecondShows(bps, d', out);
  }

  lemma FirstKeys()
    ensures AtFirst().bps.Keys == {100, 102} && AtFirst().at == Some(100)
  {
  }

  /** `cont` goes from the breakpoint at 100 to the one at 102, two instructions on, with
      both breakpoints in place. */
  lemma ContWalks()
    ensures var (d', out) := Cont(Nops(), AtFirst(), Turns(2), Turns(3));
      && out == Done(Stopped(SIGTRAP, 102)) && d'.at == Some(102) && d'.bps.Keys == {100, 102}
      && View(d') == ProgramAt(102) && Consistent(d')
  {
    FirstView();
    FirstIsSteppable();
    FirstKeys();
    hide AtFirst, Nops, ProgramAt, View, Consistent, Steppable, Stalls, Cont;
    WalksOn(AtFirst(), {100, 102});
  }

  // ---------- `finish`

  /** The breakpoint at 100 kept, the return address 101 armed for the time. */
  lemma NextIsReturn()
    ensures 101 !in Footprint(NopIsa(), ProgramAt(100).mem, ProgramAt(100).threads[1])
    ensures 101 in AtFirst().target.mem && 101 !in AtFirst().bps && AtFirst().at == Some(100)
  {
    NopSteps(100);
    hide Footprint;
  }

  lemma AtReturn()
    ensures RunsToStop(NopIsa(), ProgramAt(101), {100, 101, 102}, 1, Turns(1))
  {
    assert Turns(1).sched == Rep(1, 1) && |Rep(1, 1)| == 1;
    assert StintLen(NopIsa(), ProgramAt(101), 1, {100, 101, 102}, 1) == 0;
    assert Rep(1, 0) == [] && Run(NopIsa(), ProgramAt(101), []) == ProgramAt(101);
  }

  lemma ReturnReady()
    ensures Consistent(FinishBase(AtFirst(), 101)) && View(FinishBase(AtFirst(), 101)) == ProgramAt(100)
    ensures FinishBase(AtFirst(), 101).at == Some(100)
    ensures ExactCont(Nops(), FinishBase(AtFirst(), 101), 1, Turns(2), Turns(1))
    ensures StepOverRuns(Nops(), FinishBase(AtFirst(), 101)) == 1
  {
    hide *;
    FirstView();
    FirstIsSteppable();
    FirstKeys();
    NextIsReturn();
    AtReturn();
    TwoSteps();
    NopsDecode();
    FinishSteppable(Nops(), AtFirst(), 1, 101);
    FinishBaseSame(AtFirst(), 101);
    assert {100, 102} + {101} == {100, 101, 102};
    ExactFrom(FinishBase(AtFirst(), 101));
  }

  lemma ExactFrom(d: Dbg)
    requires Steppable(Nops(), d, 1) && !Stalls(Nops(), d) && d.at == Some(100) && View(d) == ProgramAt(100)
    requires d.bps.Keys == {100, 101, 102} && After(NopIsa(), ProgramAt(100), 1, 1) == ProgramAt(101)
    requires RunsToStop(NopIsa(), ProgramAt(101), {100, 101, 102}, 1, Turns(1))
    ensures ExactCont(Nops(), d, 1, Turns(2), Turns(1)) && StepOverRuns(Nops(), d) == 1
  {
    assert |Turns(2).sched| == 2;
    hide NopIsa, ProgramAt, View, Steppable, Stalls, RunsToStop, After;
  }

  /** The first state at a breakpoint or at 101 is the next one. */
  lemma NextShows(k: nat, d': Dbg, out: Outcome)
    requires FinishStops(NopIsa(), ProgramAt(100), {100, 102}, 101, 1, 1, k, d', out)
    ensures out == Done(Stopped(SIGTRAP, 101)) && View(d') == ProgramAt(101) && d'.bps.Keys == {100, 102}
    ensures d'.at == None && Consistent(d')
  {
    TwoSteps();
    Settled(101);
    assert Halts(After(NopIsa(), ProgramAt(100), 1, 1), 1, {100, 102} + {101});
    hide View, Consistent, After, Settle;
  }

  /** `finish` from the breakpoint at 100 with the return address 101 stops there, reports
      the stop, and leaves the two breakpoints. */
  lemma FinishWalks()
    ensures var (d', out) := RunTo(Nops(), AtFirst(), 101, Turns(2), Turns(1));
      && out == Done(Stopped(SIGTRAP, 101)) && d'.bps.Keys == {100, 102} && d'.at == None
      && View(d') == ProgramAt(101) && Consistent(d')
  {
    FirstView();
    FirstKeys();
    NextIsReturn();
    NopsDecode();
    ReturnReady();
    hide NopIsa, Nops, ProgramAt, AtFirst, Consistent, View, RunTo, FinishStops, ExactCont, FinishBase, StepOverRuns;
    hide Decodable, Footprint;
    var k := FinishExact(Nops(), AtFirst(), 101, 1, Turns(2), Turns(1));
    var (d', out) := RunTo(Nops(), AtFirst(), 101, Turns(2), Turns(1));
    NextShows(k, d', out);
  }
}
