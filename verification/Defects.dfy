/** Where the code does not meet its promise, with the inputs that show it. The exact
    conditions stand beside the promises: `SetTwiceExactIff`, `WriteExactIff`,
    `ForcePcExactIff`, `StopIsExactIff` and `Stalls`. */
module Defects {
  import opened Words
  import opened Machine
  import opened Overlay
  import opened Engine
  import opened Transparency
  import opened Stops
  import opened Session
  import opened Solo

  // ---------- a bystander one past a breakpoint

  const NOP: Byte := 0x90

  /** One-byte instructions that only advance the PC. */
  function NopIsa(): Isa {
    Isa(w => 1, (c, r) => {}, (c: seq<Byte>, r: Regs, m: Memory) => Effect(Some(r.(pc := Inc(r.pc))), map[], map[]))
  }

  function At(pc: Word): Regs {
    Regs(pc, 0, 0, 0, 0, 0, [])
  }

  /** Thread 1 stands at a breakpoint on a one-byte instruction, thread 2 has just
      executed that instruction; thread 1 runs into the breakpoint. */
  function TwoThreads(): Dbg {
    Dbg(true,
        State(map[100 := INT3, 101 := NOP], map[1 := At(100), 2 := At(101)], {}),
        map[100 := Bp(true, [NOP])], None, [1, 2], 0, None)
  }

  function FirstRuns(): Env {
    Env([1], [1, 2], StopEvent(SIGTRAP))
  }

  /** A turn of a thread in front of an `int3`. */
  lemma TrapTurn(isa: Isa, mem: Memory, threads: map<Tid, Regs>, t: Tid)
    requires t in threads && Peek(mem, threads[t].pc) == INT3
    ensures Run(isa, State(mem, threads, {}), [t])
         == State(mem, threads[t := threads[t].(pc := Inc(threads[t].pc))], {t})
  {
    assert [t][1..] == [];
  }

  /** It executes nothing if the `int3` is a patch. */
  lemma TrapExecutes(isa: Isa, s: State, saved: Memory, t: Tid)
    requires t in s.threads && s.threads[t].pc in saved
    ensures Effective(isa, s, saved, [t]) == []
  {
    assert [t][1..] == [];
    hide Step;
  }

  lemma TwoConsistent()
    ensures Consistent(TwoThreads()) && Saved(TwoThreads().bps) == map[100 := NOP]
  {
    assert ListsExactly([1, 2], TwoThreads().target.threads);
  }

  /** Thread 2, which never ran, is moved back in front of an instruction it has already
      executed. */
  lemma BystanderIsRewound()
    ensures Consistent(TwoThreads())
    ensures Executed(NopIsa(), TwoThreads(), FirstRuns()) == []
    ensures View(TwoThreads()).threads[2].pc == 101
    ensures 2 in Stint(NopIsa(), TwoThreads(), FirstRuns()).target.threads
    ensures Stint(NopIsa(), TwoThreads(), FirstRuns()).target.threads[2].pc == 100
  {
    TwoConsistent();
    var d, env := TwoThreads(), FirstRuns();
    TrapTurn(NopIsa(), d.target.mem, d.target.threads, 1);
    TrapExecutes(NopIsa(), Settle(d.target), Saved(d.bps), 1);
    assert Settle(d.target) == d.target;
    hide NopIsa, Run, Effective, Consistent, Stint, Saved;
    ShownRegs(NopIsa(), d, env, 2);
  }

  // ---------- after the end of the target

  /** The breakpoint of `finish` kept, the target ended by a signal in the second resume:
      whatever happened in the step-over, a later `cont` aborts on its `expect` exactly
      when the step-over recorded a hit at the return address. */
  lemma PanicsAfterEndIff(p: Platform, d: Dbg, ret: Word, e1: Env, e2: Env, f1: Env, f2: Env)
    requires Consistent(d) && d.at.Some? && ret in d.target.mem && ret !in d.bps
    requires !e2.event.StopEvent?
    requires var (d2, out) := StepOver(p, FinishBase(d, ret).(at := None), d.at.value, e1);
      out.Done? && Consistent(d2) && d2.bps.Keys == d.bps.Keys + {ret} && d2.last.Some? && d2.last.value.Stopped?
    ensures Cont(p, RunTo(p, d, ret, e1, e2).0, f1, f2).1 == Panicked
       <==> SteppedOver(p, FinishBase(d, ret), e1).at == Some(ret)
  {
    var d1 := FinishBase(d, ret);
    FinishBaseOk(d, ret);
    RunToUnfolds(p, d, ret, e1, e2);
    var d2 := SteppedOver(p, d1, e1);
    StintShape(p.isa, d2, e2);
    hide StepOver, Resume, Handle, Consistent;
    EndedContIff(p, d2, Stint(p.isa, d2, e2), ret, f1, f2);
  }

  lemma EndedContIff(p: Platform, d2: Dbg, d3: Dbg, ret: Word, f1: Env, f2: Env)
    requires d2.at.Some? ==> d2.at.value in d2.bps
    requires !d3.alive && d3.bps == d2.bps && d3.at == d2.at
    ensures Cont(p, d3.(bps := d3.bps - {ret}), f1, f2).1 == Panicked <==> d2.at == Some(ret)
  {
  }

  /** The same for any number of threads, under the conditions of `RunToTransparent`. */
  lemma PanicsAfterExitIff(p: Platform, d: Dbg, ret: Word, e1: Env, e2: Env, f1: Env, f2: Env)
    requires Decodable(p.isa) && Consistent(d) && d.at.Some?
    requires ret in d.target.mem && ret !in d.bps && GoodRunTo(p, d, ret, e1, e2)
    requires e1.event.StopEvent? && !e2.event.StopEvent?
    ensures Cont(p, RunTo(p, d, ret, e1, e2).0, f1, f2).1 == Panicked
       <==> SteppedOver(p, FinishBase(d, ret), e1).at == Some(ret)
  {
    var d1 := FinishBase(d, ret);
    FinishBaseSame(d, ret);
    TakeAt(d1);
    hide Consistent, StepOver, GoodStep, FinishBase;
    StepOverTransparent(p, d1.(at := None), d1.at.value, e1);
    PanicsAfterEndIff(p, d, ret, e1, e2, f1, f2);
  }

  /** Two sessions that look alike step alike. */
  lemma SteppableAlike(p: Platform, d: Dbg, d1: Dbg, t: Tid, armed: set<Word>)
    requires Steppable(p, d, t)
    requires View(d1) == View(d) && CurrentRegs(d1) == CurrentRegs(d) && CurrentPc(d1) == CurrentPc(d)
    requires d1.threads == d.threads && Candidates(p, d1, CurrentPc(d1)) == Candidates(p, d, CurrentPc(d))
    requires d1.bps.Keys + Elems(Candidates(p, d, CurrentPc(d))) - {CurrentPc(d)} == armed
    requires Clean(p.isa, View(d), armed, t)
    ensures Steppable(p, d1, t)
  {
    hide View, Candidates, CurrentRegs, CurrentPc, Step, Clean, Elems;
  }

  lemma StillClear(p: Platform, d: Dbg, t: Tid, ret: Word)
    requires Consistent(d) && Steppable(p, d, t) && ret !in Footprint(p.isa, View(d).mem, View(d).threads[t])
    ensures Clean(p.isa, View(d), d.bps.Keys + {ret} + Elems(Candidates(p, d, CurrentPc(d))) - {CurrentPc(d)}, t)
  {
    SoleThread(d, t);
    hide Consistent, View, Candidates, CurrentRegs, CurrentPc, Step, Clean, Elems, Footprint;
    var elsewhere := d.bps.Keys + Elems(Candidates(p, d, CurrentPc(d))) - {CurrentPc(d)};
    CleanAdds(p.isa, View(d), elsewhere, t, ret);
    CleanMono(p.isa, View(d), d.bps.Keys + {ret} + Elems(Candidates(p, d, CurrentPc(d))) - {CurrentPc(d)},
              elsewhere + {ret}, t);
  }

  /** Arming the return address keeps the instruction steppable if it stays clear of it. */
  lemma FinishSteppable(p: Platform, d: Dbg, t: Tid, ret: Word)
    requires Consistent(d) && d.at.Some? && Steppable(p, d, t) && ret in d.target.mem && ret !in d.bps
    requires ret !in Footprint(p.isa, View(d).mem, View(d).threads[t])
    ensures Consistent(FinishBase(d, ret)) && Steppable(p, FinishBase(d, ret), t)
    ensures Stalls(p, FinishBase(d, ret)) <==> Stalls(p, d)
  {
    FinishBaseSame(d, ret);
    SameCandidates(p, d, FinishBase(d, ret), CurrentPc(d));
    StillClear(p, d, t, ret);
    hide Consistent, View, Candidates, FinishBase, CurrentRegs, CurrentPc, Steppable, Clean, Elems, Footprint;
    SteppableAlike(p, d, FinishBase(d, ret), t,
                   d.bps.Keys + {ret} + Elems(Candidates(p, d, CurrentPc(d))) - {CurrentPc(d)});
  }

  lemma FinishBaseSame(d: Dbg, ret: Word)
    requires Consistent(d) && ret in d.target.mem && ret !in d.bps
    ensures var d1 := FinishBase(d, ret);
      && Consistent(d1) && View(d1) == View(d) && d1.bps.Keys == d.bps.Keys + {ret}
      && CurrentRegs(d1) == CurrentRegs(d) && CurrentPc(d1) == CurrentPc(d) && d1.threads == d.threads && d1.at == d.at
  {
    SetBpConsistent(d, ret);
    hide Consistent, View;
  }

  lemma CleanAdds(isa: Isa, u: State, armed: set<Word>, t: Tid, a: Word)
    requires Clean(isa, u, armed, t) && t in u.threads && a !in Footprint(isa, u.mem, u.threads[t])
    ensures Clean(isa, u, armed + {a}, t)
  {
    hide Footprint;
  }

  /** For one thread: `finish` at a breakpoint, then the end by a signal, makes a later
      `cont` abort exactly when the next instruction of the program leads to the return
      address. */
  lemma AbortsAfterKillIff(p: Platform, d: Dbg, t: Tid, ret: Word, e1: Env, e2: Env, f1: Env, f2: Env)
    requires Decodable(p.isa) && Consistent(d) && d.at.Some? && Steppable(p, d, t)
    requires ret in d.target.mem && ret !in d.bps && ret !in Footprint(p.isa, View(d).mem, View(d).threads[t])
    requires TrapEnv(e1, t) && |e1.sched| >= 2 && e2.event.KillEvent?
    ensures Cont(p, RunTo(p, d, ret, e1, e2).0, f1, f2).1 == Panicked
       <==> !Stalls(p, d) && Step(p.isa, View(d), t).threads[t].pc == ret
  {
    var d1, n := FinishBase(d, ret), if Stalls(p, d) then 0 else 1;
    FinishSteppable(p, d, t, ret);
    FinishBaseSame(d, ret);
    var (d2, out) := StepOver(p, d1.(at := None), d1.at.value, e1);
    StepOverExact(p, d1, t, e1, d2, out);
    PanicsAfterEndIff(p, d, ret, e1, e2, f1, f2);
    SoleThreadOf(d2, t);
    SoleThread(d, t);
    StepIsAfter(p.isa, View(d), t);
    hide Consistent, StepOver, Stalls, Steppable, RunTo, Cont;
  }

  lemma StepIsAfter(isa: Isa, u: State, t: Tid)
    ensures After(isa, u, t, 1) == Step(isa, u, t) && After(isa, u, t, 0) == u
  {
    RepStep(isa, u, t, 1);
  }

  // ---------- the failing `expect`, in any state

  /** `cont` aborts exactly when a breakpoint is recorded that is not in the table. */
  lemma PanicsIff(p: Platform, d: Dbg, e1: Env, e2: Env)
    ensures Cont(p, d, e1, e2).1 == Panicked <==> d.at.Some? && d.at.value !in d.bps
  {
    hide Resume, Handle, Plant, Unplant, Candidates, SetBp;
    if d.at.Some? && d.at.value in d.bps {
      StepOverLasts(p, d.(at := None), d.at.value, e1);
    }
    hide StepOver;
  }

  lemma StepOverLasts(p: Platform, d: Dbg, a: Word, env: Env)
    requires a in d.bps
    ensures var (d1, out) := StepOver(p, d, a, env); out != Panicked && (out.Done? ==> d1.last.Some?)
  {
    hide Resume, Handle, Plant, Unplant, Candidates;
    var d1 := Disable(d.(bps := d.bps - {a}), a, d.bps[a]).0;
    if CurrentRegs(d1).Some? {
      StepCurrentLasts(p, ForcePc(d1, a), env);
    }
    hide StepCurrent, ForcePc, Disable, CurrentRegs;
  }

  lemma StepCurrentLasts(p: Platform, d: Dbg, env: Env)
    ensures var (d1, out) := StepCurrent(p, d, env); out != Panicked && (out.Done? ==> d1.last.Some?)
  {
    match CurrentRegs(d)
    case None =>
    case Some(r) =>
      var (d1, planted) := Plant(d, Candidates(p, d, r.pc));
      var d2 := Handle(Resume(p.isa, d1, env));
      UnplantLasts(d2, planted);
      hide Run, Plant, Unplant, Candidates, FirstHit, Rewound;
  }

  lemma {:induction false} UnplantLasts(d: Dbg, planted: seq<Word>)
    ensures Unplant(d, planted).last == d.last
    decreases |planted|
  {
    if planted != [] {
      UnplantLasts(RemoveBp(d, planted[0]).0, planted[1..]);
    }
  }

  /** With the target gone, `cont` from a breakpoint is an error that takes the entry away. */
  lemma DeadCont(p: Platform, d: Dbg, e1: Env, e2: Env)
    requires !d.alive && d.at.Some? && IsArmed(d, d.at.value)
    ensures Cont(p, d, e1, e2) == (d.(at := None, bps := d.bps - {d.at.value}), Failed)
  {
    hide StepAndRearm;
  }

  /** With the target gone, removing an armed breakpoint takes its entry away, fails, and
      keeps it recorded. */
  lemma DeadRemoval(d: Dbg, b: Word)
    requires !d.alive && IsArmed(d, b)
    ensures RemoveBp(d, b) == (d.(bps := d.bps - {b}), false)
  {
  }

  /** So after the end of the target, deleting `b` makes the next `cont` abort exactly when
      `b` is the breakpoint recorded. */
  lemma AbortsAfterDeleteIff(p: Platform, d: Dbg, b: Word, f1: Env, f2: Env)
    requires !d.alive && IsArmed(d, b) && (d.at.Some? ==> d.at.value in d.bps)
    ensures !RemoveBp(d, b).1
    ensures Cont(p, RemoveBp(d, b).0, f1, f2).1 == Panicked <==> d.at == Some(b)
  {
    DeadRemoval(d, b);
    PanicsIff(p, RemoveBp(d, b).0, f1, f2);
    hide Cont, RemoveBp;
  }

  /** For one thread: `cont` from a breakpoint, the end by a signal in its second resume,
      the armed `b` deleted; the next `cont` aborts exactly when the next instruction of
      the program leads to `b`. */
  lemma AbortsAfterKillDeleteIff(p: Platform, d: Dbg, t: Tid, b: Word, e1: Env, e2: Env, f1: Env, f2: Env)
    requires Decodable(p.isa) && Consistent(d) && d.at.Some? && Steppable(p, d, t) && b in d.bps
    requires TrapEnv(e1, t) && |e1.sched| >= 2 && e2.event.KillEvent?
    ensures Cont(p, RemoveBp(Cont(p, d, e1, e2).0, b).0, f1, f2).1 == Panicked
       <==> !Stalls(p, d) && Step(p.isa, View(d), t).threads[t].pc == b
  {
    var (d2, out) := StepOver(p, d.(at := None), d.at.value, e1);
    StepOverExact(p, d, t, e1, d2, out);
    StepOverLands(p, d, t, d2, out);
    KilledAfter(p, d, e1, e2, d2, out);
    hide Decodable, Consistent, Steppable, Stalls, View, Step, StepOver, ShowsAfter, Cont, RemoveBp, CurrentPc;
    AbortsAfterDeleteIff(p, Cont(p, d, e1, e2).0, b, f1, f2);
  }

  /** What is recorded after the step-over is where the program's instruction leads. */
  lemma StepOverLands(p: Platform, d: Dbg, t: Tid, d2: Dbg, out: Outcome)
    requires Consistent(d) && d.at.Some? && Steppable(p, d, t)
    requires ShowsAfter(p, d, t, if Stalls(p, d) then 0 else 1, d2, out) && d2.bps.Keys == d.bps.Keys
    requires d2.at == if CurrentPc(d2) in d.bps.Keys - {d.at.value} then Some(CurrentPc(d2)) else None
    ensures out.Done? && out.status.Stopped? && d2.last == Some(out.status) && Consistent(d2)
    ensures forall b :: b in d.bps ==> (d2.at == Some(b) <==>
      !Stalls(p, d) && Step(p.isa, View(d), t).threads[t].pc == b)
  {
    SoleThreadOf(d2, t);
    SoleThread(d, t);
    StepIsAfter(p.isa, View(d), t);
    hide Candidates, Clean, Step;
  }

  /** The end in the second resume changes neither table nor record. */
  lemma KilledAfter(p: Platform, d: Dbg, e1: Env, e2: Env, d2: Dbg, out: Outcome)
    requires d.at.Some? && (d2, out) == StepOver(p, d.(at := None), d.at.value, e1)
    requires out.Done? && out.status.Stopped? && d2.last == Some(out.status) && Consistent(d2) && e2.event.KillEvent?
    ensures var d3 := Cont(p, d, e1, e2).0;
      && !d3.alive && d3.at == d2.at && d3.bps == d2.bps && (d3.at.Some? ==> d3.at.value in d3.bps)
      && forall b :: b in d3.bps ==> IsArmed(d3, b)
  {
    StintShape(p.isa, d2, e2);
    hide StepOver, Resume, Handle;
  }
}
