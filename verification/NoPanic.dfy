/** No command ever aborts on a missing breakpoint: over every sequence of commands, every
    schedule and every stop, with no condition on what the user or the program does. */
module NoPanic {
  import opened Words
  import opened Machine
  import opened Engine
  import opened Stops
  import opened Session
  import opened Commands

  /** Every entry of the table is armed with one saved byte, at a mapped address. */
  ghost predicate TableSane(d: Dbg) {
    forall a :: a in d.bps ==> d.bps[a].enabled && |d.bps[a].saved| == 1 && a in d.target.mem
  }

  /** And a recorded hit is an entry of the table. */
  ghost predicate Sane(d: Dbg) {
    TableSane(d) && (d.at.Some? ==> d.at.value in d.bps)
  }

  /** What an operation keeps: the invariant while the target lives, and a truthful status. */
  ghost predicate Safe(d: Dbg, out: Outcome) {
    && out != Panicked
    && (d.alive ==> Sane(d))
    && (out.Done? ==> d.last == Some(out.status) && (out.status.Stopped? <==> d.alive))
  }

  lemma SetBpSane(d: Dbg, a: Word)
    requires Sane(d)
    ensures var d1 := SetBp(d, a).0; Sane(d1) && d1 == d.(target := d1.target, bps := d1.bps)
  {
  }

  lemma RemoveBpSane(d: Dbg, a: Word)
    requires Sane(d) && d.alive
    ensures var (d1, ok) := RemoveBp(d, a);
      ok && Sane(d1) && d1 == d.(target := d1.target, bps := d1.bps, at := d1.at)
  {
  }

  lemma {:induction false} PlantSane(d: Dbg, candidates: seq<Word>)
    requires Sane(d)
    ensures var d1 := Plant(d, candidates).0; Sane(d1) && d1 == d.(target := d1.target, bps := d1.bps)
    decreases |candidates|
  {
    hide SetBp, Sane;
    if candidates != [] {
      SetBpSane(d, candidates[0]);
      PlantSane(PlantOne(d, candidates[0]).0, candidates[1..]);
    }
  }

  lemma {:induction false} UnplantSane(d: Dbg, planted: seq<Word>)
    requires d.alive ==> Sane(d)
    ensures var d1 := Unplant(d, planted); (d1.alive ==> Sane(d1)) && d1.alive == d.alive && d1.last == d.last
    decreases |planted|
  {
    hide Sane;
    if planted != [] {
      var d1 := RemoveBp(d, planted[0]).0;
      if d.alive {
        RemoveBpSane(d, planted[0]);
      }
      UnplantSane(d1, planted[1..]);
    }
  }

  /** A resume and its stop, whatever ran and whoever is reported. */
  lemma StintSane(isa: Isa, d: Dbg, env: Env)
    requires Sane(d) && d.alive
    ensures var d1 := Stint(isa, d, env); Safe(d1, Done(d1.last.value)) && d1.bps == d.bps
  {
    StintShape(isa, d, env);
    RunKeepsMapped(isa, Settle(d.target), env.sched);
    var d1 := Resume(isa, d, env);
    HitIsArmed(d1);
    hide Run;
  }

  lemma HitIsArmed(d: Dbg)
    ensures Handle(d).at == d.at || (Handle(d).at.Some? && IsArmed(d, Handle(d).at.value))
  {
  }

  lemma StepCurrentSafe(p: Platform, d: Dbg, env: Env)
    requires Sane(d) && d.alive
    ensures Safe(StepCurrent(p, d, env).0, StepCurrent(p, d, env).1)
  {
    hide Plant, Unplant, Sane, Resume, Handle, Candidates;
    if CurrentRegs(d).Some? {
      var (d1, planted) := Plant(d, Candidates(p, d, CurrentRegs(d).value.pc));
      PlantSane(d, Candidates(p, d, CurrentRegs(d).value.pc));
      StintSane(p.isa, d1, env);
      UnplantSane(Stint(p.isa, d1, env), planted);
    }
  }

  lemma StepAndRearmSafe(p: Platform, d: Dbg, a: Word, env: Env)
    requires Sane(d) && d.alive && CurrentRegs(d).Some?
    ensures Safe(StepAndRearm(p, d, a, env).0, StepAndRearm(p, d, a, env).1)
  {
    hide StepCurrent, SetBp;
    assert Sane(ForcePc(d, a));
    StepCurrentSafe(p, ForcePc(d, a), env);
    var d1 := StepCurrent(p, ForcePc(d, a), env).0;
    hide Sane;
    if d1.alive {
      SetBpSane(d1, a);
    } else {
      DeadRefuses(d1, a);
    }
  }

  lemma DeadRefuses(d: Dbg, a: Word)
    requires !d.alive
    ensures SetBp(d, a) == (d, false)
  {
  }

  lemma StepOverSafe(p: Platform, d: Dbg, a: Word, env: Env)
    requires Sane(d) && d.alive && d.at.None? && a in d.bps
    ensures Safe(StepOver(p, d, a, env).0, StepOver(p, d, a, env).1)
  {
    hide StepAndRearm;
    var (d1, ok) := Disable(d.(bps := d.bps - {a}), a, d.bps[a]);
    assert ok && Sane(d1) && d1.alive;
    if CurrentRegs(d1).Some? {
      StepAndRearmSafe(p, d1, a, env);
    }
  }

  lemma StepISafe(p: Platform, d: Dbg, env: Env)
    requires Sane(d) && d.alive
    ensures Safe(StepI(p, d, env).0, StepI(p, d, env).1)
  {
    hide StepOver, StepCurrent;
    if d.at.Some? {
      StepOverSafe(p, d.(at := None), d.at.value, env);
    } else {
      StepCurrentSafe(p, d, env);
    }
  }

  lemma ContMainSafe(p: Platform, d: Dbg, env: Env)
    requires d.alive ==> Sane(d)
    ensures Safe(ContMain(p, d, env).0, ContMain(p, d, env).1)
  {
    hide Resume, Handle;
    if d.alive {
      StintSane(p.isa, d, env);
    }
  }

  lemma ContSafe(p: Platform, d: Dbg, e1: Env, e2: Env)
    requires Sane(d) && d.alive
    ensures Safe(Cont(p, d, e1, e2).0, Cont(p, d, e1, e2).1)
  {
    hide StepOver, ContMain;
    if d.at.Some? {
      StepOverSafe(p, d.(at := None), d.at.value, e1);
      ContMainSafe(p, StepOver(p, d.(at := None), d.at.value, e1).0, e2);
    } else {
      ContMainSafe(p, d, e2);
    }
  }

  lemma WithdrawSafe(d: Dbg, ret: Word, out: Outcome)
    requires Safe(d, out)
    ensures Safe(Withdraw(d, ret, out).0, Withdraw(d, ret, out).1)
  {
    hide RemoveBp, Sane;
    if d.alive {
      RemoveBpSane(d, ret);
    } else {
      DeadKeepsLast(d, ret);
    }
  }

  lemma DeadKeepsLast(d: Dbg, a: Word)
    requires !d.alive
    ensures !RemoveBp(d, a).0.alive && RemoveBp(d, a).0.last == d.last
  {
  }

  lemma FinishSafe(p: Platform, d: Dbg, e1: Env, e2: Env)
    requires Sane(d) && d.alive
    ensures Safe(Finish(p, d, e1, e2).0, Finish(p, d, e1, e2).1)
  {
    hide Cont, SetBp, Withdraw, ReturnAddress, Sane;
    if ReturnAddress(d).Some? {
      var ret := ReturnAddress(d).value;
      SetBpSane(d, ret);
      var d1 := if ret in d.bps then d else SetBp(d, ret).0;
      ContSafe(p, d1, e1, e2);
      var (d2, out) := Cont(p, d1, e1, e2);
      WithdrawSafe(d2, ret, out);
    }
  }

  lemma DoSafe(p: Platform, d: Dbg, cmd: Cmd)
    requires Sane(d) && d.alive
    ensures var (d1, panicked) := Do(p, d, cmd); !panicked && (d1.alive ==> Sane(d1))
  {
    hide StepI, Cont, Finish, SetBp, RemoveBp;
    match cmd
    case SetAt(a) => SetBpSane(d, a);
    case RemoveAt(a) => RemoveBpSane(d, a);
    case StepOne(e) => StepISafe(p, d, e);
    case Continue(e1, e2) => ContSafe(p, d, e1, e2);
    case FinishFn(e1, e2) => FinishSafe(p, d, e1, e2);
    case Poke(_, _) =>
    case SelectThread(_) =>
  }

  /** In every reachable state of a live target `at_breakpoint` is an armed entry of the
      table, and no command aborts. */
  lemma {:induction false} NeverPanics(p: Platform, d: Dbg, cmds: seq<Cmd>)
    requires Sane(d)
    ensures var (d1, panicked) := DoAll(p, d, cmds); !panicked && (d1.alive ==> Sane(d1))
    decreases |cmds|
  {
    hide Do, Sane;
    if cmds != [] && d.alive {
      DoSafe(p, d, cmds[0]);
      var d1 := Do(p, d, cmds[0]).0;
      if d1.alive {
        NeverPanics(p, d1, cmds[1..]);
      }
    }
  }

  /** Every session starts there. */
  lemma AttachSane(state: State, listing: seq<Tid>)
    ensures Sane(Dbg(true, state, map[], None, listing, 0, None))
  {
  }
}
