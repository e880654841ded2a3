/** Transparency with conditions on the program alone: nothing the kernel hides is asked
    about, only where the unpatched program's threads are when it stops. */
module Fair {
  import opened Words
  import opened Machine
  import opened Engine
  import opened Transparency
  import opened Stops
  import opened Session
  import opened Commands

  /** `GoodStint` on the program's side: the executed instructions keep away from patched
      bytes, the listing names the program's threads, and none of them has stopped one past
      a breakpoint, nor at one when the stop is not a SIGTRAP. */
  ghost predicate FairStint(isa: Isa, d: Dbg, env: Env) {
    var u := Run(isa, View(d), Executed(isa, d, env));
    && CleanRun(isa, View(d), d.bps.Keys, Executed(isa, d, env))
    && (env.event.StopEvent? ==>
        ListsExactly(env.listing, u.threads) && NobodyNear(u, d.bps.Keys, env.event.signal))
  }

  lemma FairIsGood(isa: Isa, d: Dbg, env: Env)
    requires Decodable(isa) && TableOk(d) && FairStint(isa, d, env)
    ensures GoodStint(isa, d, env)
  {
    hide Run, Executed, Raw, CleanRun, View, NobodyNear, PcTellsTruth, TableOk;
    if env.event.StopEvent? {
      TruthFromProgram(isa, d, env);
    }
  }

  /** The session whose target a single step resumes. */
  function StepBase(p: Platform, d: Dbg): Dbg {
    if d.at.None? then Prepared(p, d)
    else if d.at.value in d.bps then Prepared(p, Disarmed(d.(at := None), d.at.value))
    else d
  }

  ghost predicate FairCont(p: Platform, d: Dbg, e1: Env, e2: Env) {
    && (d.at.Some? ==> FairStint(p.isa, StepBase(p, d), e1))
    && (d.at.None? || e1.event.StopEvent? ==> FairStint(p.isa, SteppedOver(p, d, e1), e2))
  }

  /** `GoodCmd` with every resume fair. */
  ghost predicate FairCmd(p: Platform, d: Dbg, cmd: Cmd) {
    match cmd
    case SetAt(a) => a !in d.bps
    case RemoveAt(a) => true
    case StepOne(e) => CurrentRegs(d).Some? && FairStint(p.isa, StepBase(p, d), e)
    case Continue(e1, e2) => FairCont(p, d, e1, e2)
    case FinishFn(e1, e2) =>
      ReturnAddress(d).Some? && ReturnAddress(d).value in d.target.mem ==>
        FairCont(p, FinishBase(d, ReturnAddress(d).value), e1, e2)
    case Poke(a, data) => forall x :: x in d.bps ==> !(a <= x < a + |data|)
    case SelectThread(i) => i < |d.threads| ==> AtIsCurrent(d.(current := i))
  }

  lemma PreparedTable(p: Platform, d: Dbg)
    requires Consistent(d)
    ensures TableOk(Prepared(p, d))
  {
    hide View;
    PlantInvisible(d, Candidates(p, d, CurrentPc(d)));
  }

  lemma FairStepIsGood(p: Platform, d: Dbg, env: Env)
    requires Decodable(p.isa) && Consistent(d) && CurrentRegs(d).Some? && FairStint(p.isa, StepBase(p, d), env)
    ensures GoodStepI(p, d, env)
  {
    if d.at.Some? {
      TakeAt(d);
      var d0 := d.(at := None);
      DisarmedInvisible(d0, d.at.value);
      FairPrepared(p, Disarmed(d0, d.at.value), env);
    } else {
      FairPrepared(p, d, env);
    }
  }

  lemma FairPrepared(p: Platform, d: Dbg, env: Env)
    requires Decodable(p.isa) && Consistent(d) && CurrentRegs(d).Some? && FairStint(p.isa, Prepared(p, d), env)
    ensures GoodStep(p, d, env)
  {
    PreparedTable(p, d);
    FairIsGood(p.isa, Prepared(p, d), env);
  }

  lemma FairContIsGood(p: Platform, d: Dbg, e1: Env, e2: Env)
    requires Decodable(p.isa) && Consistent(d) && FairCont(p, d, e1, e2)
    ensures GoodCont(p, d, e1, e2)
  {
    if d.at.Some? {
      assert CurrentRegs(d).Some? && CurrentPc(d) == d.at.value;
      TakeAt(d);
      hide FairStint, View, StepOver, GoodStint, CurrentRegs, CurrentPc, StepBase;
      FairStepIsGood(p, d, e1);
      if e1.event.StopEvent? {
        StepOverTransparent(p, d.(at := None), d.at.value, e1);
        FairIsGood(p.isa, SteppedOver(p, d, e1), e2);
      }
    } else {
      FairIsGood(p.isa, d, e2);
    }
  }

  lemma FairCmdIsGood(p: Platform, d: Dbg, cmd: Cmd)
    requires Decodable(p.isa) && Consistent(d) && FairCmd(p, d, cmd)
    ensures GoodCmd(p, d, cmd)
  {
    hide GoodCont, FairCont, GoodStepI, FairStint, ReturnAddress, FinishBase;
    match cmd
    case StepOne(e) => FairStepIsGood(p, d, e);
    case Continue(e1, e2) => FairContIsGood(p, d, e1, e2);
    case FinishFn(e1, e2) =>
      if ReturnAddress(d).Some? && ReturnAddress(d).value in d.target.mem {
        FinishBaseOk(d, ReturnAddress(d).value);
        FairContIsGood(p, FinishBase(d, ReturnAddress(d).value), e1, e2);
      }
    case _ =>
  }

  ghost predicate FairSession(p: Platform, d: Dbg, cmds: seq<Cmd>)
    decreases |cmds|
  {
    cmds == [] || !d.alive ||
    (FairCmd(p, d, cmds[0]) && FairSession(p, Do(p, d, cmds[0]).0, cmds[1..]))
  }

  lemma {:induction false} FairSessionIsGood(p: Platform, d: Dbg, cmds: seq<Cmd>)
    requires Decodable(p.isa) && (d.alive ==> Consistent(d)) && FairSession(p, d, cmds)
    ensures GoodSession(p, d, cmds)
    decreases |cmds|
  {
    hide Do, Consistent, FairCmd, GoodCmd, View, Replay, CmdActs;
    if cmds != [] && d.alive {
      FairCmdIsGood(p, d, cmds[0]);
      DoShows(p, d, cmds[0]);
      FairSessionIsGood(p, Do(p, d, cmds[0]).0, cmds[1..]);
    }
  }

  /** Any session, any number of threads, any schedule: where the program keeps to the
      conditions above, the user sees the unpatched program. */
  lemma FairSessionTransparent(p: Platform, d: Dbg, cmds: seq<Cmd>)
    requires Decodable(p.isa) && Consistent(d) && FairSession(p, d, cmds)
    ensures var (d', panicked) := DoAll(p, d, cmds);
      && !panicked
      && (d'.alive ==> Consistent(d') && View(d') == Replay(p.isa, View(d), SessionActs(p, d, cmds)))
  {
    FairSessionIsGood(p, d, cmds);
    SessionTransparent(p, d, cmds);
  }
}
