/** Transparency over whole sessions: any sequence of commands, on any number of
    threads, shows the user a run of the unpatched target. */
module Session {
  import opened Words
  import opened Machine
  import opened Overlay
  import opened Engine
  import opened Transparency
  import opened Stops

  // ---------- temporary breakpoints

  ghost function Elems(s: seq<Word>): set<Word> {
    set a | a in s
  }

  lemma MinusNone(bps: map<Word, Bp>)
    ensures bps - Elems([]) == bps
  {}

  lemma MinusCons(bps: map<Word, Bp>, a: Word, rest: seq<Word>)
    ensures bps - Elems([a] + rest) == (bps - {a}) - Elems(rest)
    ensures bps - Elems([a] + rest) == (bps - Elems(rest)) - {a}
  {
    assert Elems([a] + rest) == {a} + Elems(rest);
  }

  /** Everything but patches, table and `at`. */
  ghost predicate SameFrame(d: Dbg, d1: Dbg) {
    d1 == d.(target := d.target.(mem := d1.target.mem), bps := d1.bps, at := d1.at)
  }

  lemma KeysBack(bps: map<Word, Bp>, a: Word)
    requires a in bps
    ensures (bps - {a}).Keys + {a} == bps.Keys && bps.Keys + {a} == bps.Keys
  {
  }

  lemma KeysLess(bps: map<Word, Bp>, a: Word)
    ensures (bps - {a}).Keys == bps.Keys - {a}
  {
  }

  lemma PlantOneInvisible(d: Dbg, a: Word)
    requires d.alive && TableOk(d)
    ensures var (d1, ok) := PlantOne(d, a);
      && TableOk(d1) && View(d1) == View(d) && SameFrame(d, d1) && d1.at == d.at
      && d1.target.mem.Keys == d.target.mem.Keys
      && (if ok then a !in d.bps && d1.bps - {a} == d.bps else d1.bps == d.bps)
      && d1.bps.Keys == (if a in d.target.mem then d.bps.Keys + {a} else d.bps.Keys)
  {
    if a !in d.bps {
      SetBpInvisible(d, a);
      assert (d.bps[a := Bp(true, [Peek(d.target.mem, a)])]) - {a} == d.bps;
    } else {
      KeysBack(d.bps, a);
    }
  }

  lemma {:induction false} PlantInvisible(d: Dbg, candidates: seq<Word>)
    requires d.alive && TableOk(d)
    ensures var (d1, planted) := Plant(d, candidates);
      && TableOk(d1) && View(d1) == View(d) && SameFrame(d, d1) && d1.at == d.at
      && d1.target.mem.Keys == d.target.mem.Keys
      && d1.bps - Elems(planted) == d.bps
    decreases |candidates|
  {
    if candidates == [] {
      MinusNone(d.bps);
    } else {
      var a := candidates[0];
      PlantOneInvisible(d, a);
      var (d1, ok) := PlantOne(d, a);
      PlantInvisible(d1, candidates[1..]);
      var (d2, planted) := Plant(d1, candidates[1..]);
      MinusCons(d2.bps, a, planted);
      assert [] + planted == planted;
    }
  }

  /** Every mapped candidate ends up armed, and nothing else is added. */
  lemma {:induction false} PlantArms(d: Dbg, candidates: seq<Word>)
    requires d.alive && TableOk(d)
    ensures Plant(d, candidates).0.bps.Keys
         == d.bps.Keys + (set a | a in candidates && a in d.target.mem)
    decreases |candidates|
  {
    if candidates != [] {
      PlantOneInvisible(d, candidates[0]);
      PlantArms(PlantOne(d, candidates[0]).0, candidates[1..]);
    }
  }

  lemma {:induction false} UnplantInvisible(d: Dbg, planted: seq<Word>)
    requires d.alive && TableOk(d)
    ensures var d1 := Unplant(d, planted);
      && TableOk(d1) && View(d1) == View(d) && SameFrame(d, d1)
      && d1.bps == d.bps - Elems(planted)
      && d1.at == (if d.at.Some? && d.at.value in planted then None else d.at)
    decreases |planted|
  {
    if planted == [] {
      MinusNone(d.bps);
    } else {
      RemoveBpInvisible(d, planted[0]);
      UnplantInvisible(RemoveBp(d, planted[0]).0, planted[1..]);
      MinusCons(d.bps, planted[0], planted[1..]);
      assert [planted[0]] + planted[1..] == planted;
    }
  }

  lemma PlantConsistent(d: Dbg, candidates: seq<Word>)
    requires Consistent(d)
    ensures Consistent(Plant(d, candidates).0)
  {
    PlantInvisible(d, candidates);
    PlantArms(d, candidates);
  }

  lemma UnplantConsistent(d: Dbg, planted: seq<Word>)
    requires Consistent(d)
    ensures Consistent(Unplant(d, planted))
  {
    UnplantInvisible(d, planted);
    var d1 := Unplant(d, planted);
    if d1.at.Some? {
      assert d1.at.value in d1.bps;
    }
  }

  // ---------- the unpatched program's side of a session

  /** What happens to the unpatched target: it runs, or the user edits its memory. */
  datatype Act = Ran(sched: seq<Tid>) | Poked(a: Word, data: seq<Byte>)

  function Perform(isa: Isa, u: State, act: Act): State {
    match act
    case Ran(sched) => Settle(Run(isa, u, sched))
    case Poked(a, data) =>
      if RangeMapped(u.mem, a, |data|) then u.(mem := Overwrite(u.mem, a, data)) else u
  }

  function Replay(isa: Isa, u: State, acts: seq<Act>): State
    decreases |acts|
  {
    if acts == [] then u else Replay(isa, Perform(isa, u, acts[0]), acts[1..])
  }

  lemma {:induction false} ReplayConcat(isa: Isa, u: State, a: seq<Act>, b: seq<Act>)
    ensures Replay(isa, u, a + b) == Replay(isa, Replay(isa, u, a), b)
    decreases |a|
  {
    if a == [] {
      assert a + b == b;
    } else {
      assert (a + b)[0] == a[0] && (a + b)[1..] == a[1..] + b;
      ReplayConcat(isa, Perform(isa, u, a[0]), a[1..], b);
    }
  }

  lemma ReplayNone(isa: Isa, u: State)
    ensures Replay(isa, u, []) == u
  {
  }

  lemma ReplayOne(isa: Isa, u: State, act: Act)
    ensures Replay(isa, u, [act]) == Perform(isa, u, act)
  {
    assert [act][1..] == [];
  }

  // ---------- single steps

  /** The session as a single step resumes it: temporary breakpoints in place. */
  function Prepared(p: Platform, d: Dbg): Dbg {
    Plant(d, Candidates(p, d, CurrentPc(d))).0
  }

  ghost predicate GoodStep(p: Platform, d: Dbg, env: Env) {
    CurrentRegs(d).Some? && GoodStint(p.isa, Prepared(p, d), env)
  }

  function StepActs(p: Platform, d: Dbg, env: Env): seq<Act> {
    [Ran(Executed(p.isa, Prepared(p, d), env))]
  }

  /** Temporary breakpoints leave no trace, and the step is a run of the program. */
  lemma StepCurrentTransparent(p: Platform, d: Dbg, env: Env)
    requires Decodable(p.isa) && Consistent(d) && GoodStep(p, d, env)
    ensures var (d', out) := StepCurrent(p, d, env);
      && out.Done? && d'.last == Some(out.status)
      && (out.status.Stopped? <==> d'.alive)
      && (d'.alive <==> env.event.StopEvent?)
      && d'.bps == d.bps
      && (d'.alive ==>
          && Consistent(d')
          && View(d') == Replay(p.isa, View(d), StepActs(p, d, env)))
  {
    var candidates := Candidates(p, d, CurrentPc(d));
    var (d1, planted) := Plant(d, candidates);
    assert d1 == Prepared(p, d);
    PlantInvisible(d, candidates);
    PlantConsistent(d, candidates);
    StintShape(p.isa, d1, env);
    var d2 := Stint(p.isa, d1, env);
    if env.event.StopEvent? {
      StintConsistent(p.isa, d1, env);
      StintTransparent(p.isa, d1, env);
      UnplantInvisible(d2, planted);
      UnplantConsistent(d2, planted);
      ReplayOne(p.isa, View(d), Ran(Executed(p.isa, d1, env)));
    } else {
      UnplantDead(d2, planted);
    }
  }

  /** With the target gone, removing temporary breakpoints only shortens the table. */
  lemma {:induction false} UnplantDead(d: Dbg, planted: seq<Word>)
    requires !d.alive
    ensures !Unplant(d, planted).alive && Unplant(d, planted).last == d.last
    ensures Unplant(d, planted).bps == d.bps - Elems(planted)
    decreases |planted|
  {
    if planted == [] {
      MinusNone(d.bps);
    } else {
      assert d.bps - {planted[0]} == RemoveBp(d, planted[0]).0.bps;
      UnplantDead(RemoveBp(d, planted[0]).0, planted[1..]);
      MinusCons(d.bps, planted[0], planted[1..]);
      assert [planted[0]] + planted[1..] == planted;
    }
  }

  // ---------- stepping over a breakpoint

  lemma {:induction false} RunKeepsMapped(isa: Isa, s: State, sched: seq<Tid>)
    ensures s.mem.Keys <= Run(isa, s, sched).mem.Keys
    decreases |sched|
  {
    if sched != [] {
      RunKeepsMapped(isa, Step(isa, s, sched[0]), sched[1..]);
    }
  }

  function Disarmed(d: Dbg, a: Word): Dbg
    requires a in d.bps
  {
    Disable(d.(bps := d.bps - {a}), a, d.bps[a]).0
  }

  lemma DisarmedInvisible(d: Dbg, a: Word)
    requires Consistent(d) && d.at.None? && a in d.bps
    ensures Disable(d.(bps := d.bps - {a}), a, d.bps[a]).1
    ensures Consistent(Disarmed(d, a)) && View(Disarmed(d, a)) == View(d)
    ensures SameFrame(d, Disarmed(d, a)) && Disarmed(d, a).at.None?
    ensures Disarmed(d, a).bps == d.bps - {a}
    ensures Disarmed(d, a).target.mem.Keys == d.target.mem.Keys
    ensures CurrentRegs(Disarmed(d, a)) == CurrentRegs(d)
  {
    RemoveBpInvisible(d, a);
    assert RemoveBp(d, a).0 == Disarmed(d, a);
  }

  /** Forcing the PC back onto the breakpoint is invisible exactly when the selected
      thread is the one that stopped there: selecting another thread in between
      moves that one. */
  lemma ForcePcExactIff(d: Dbg, a: Word)
    requires CurrentRegs(d).Some?
    ensures View(ForcePc(d, a)) == View(d) <==> CurrentPc(d) == a
  {
    var t := d.threads[d.current];
    assert View(ForcePc(d, a)).threads[t].pc == a;
    if CurrentPc(d) == a {
      assert ForcePc(d, a).target.threads == d.target.threads;
    }
  }

  lemma ForcePcIsNothing(d: Dbg, a: Word)
    requires CurrentRegs(d).Some? && CurrentPc(d) == a
    ensures ForcePc(d, a) == d
  {
    var t := d.threads[d.current];
    assert d.target.threads[t := d.target.threads[t].(pc := a)] == d.target.threads;
  }

  lemma SetBpConsistent(d: Dbg, a: Word)
    requires Consistent(d) && a !in d.bps && a in d.target.mem
    ensures var (d1, ok) := SetBp(d, a);
      && ok && Consistent(d1) && View(d1) == View(d) && d1.bps.Keys == d.bps.Keys + {a}
      && SameFrame(d, d1) && d1.at == d.at
  {
    SetBpInvisible(d, a);
  }

  lemma ViewKeys(d: Dbg)
    requires Consistent(d)
    ensures View(d).mem.Keys == d.target.mem.Keys
  {
    SavedIsTable(d);
  }

  lemma StepKeepsMapped(p: Platform, d: Dbg, env: Env)
    requires Decodable(p.isa) && Consistent(d) && GoodStep(p, d, env) && env.event.StopEvent?
    ensures d.target.mem.Keys <= StepCurrent(p, d, env).0.target.mem.Keys
  {
    hide StepCurrent, GoodStep, Executed;
    StepCurrentTransparent(p, d, env);
    var d2 := StepCurrent(p, d, env).0;
    ReplayOne(p.isa, View(d), StepActs(p, d, env)[0]);
    RunKeepsMapped(p.isa, View(d), StepActs(p, d, env)[0].sched);
    ViewKeys(d);
    ViewKeys(d2);
    hide Consistent, View, Run, Replay;
  }

  /** Step-over in terms of its middle step, when disarming succeeds and the PC is right. */
  lemma StepOverUnfolds(p: Platform, d: Dbg, a: Word, env: Env)
    requires Consistent(d) && d.at.None? && a in d.bps
    requires CurrentRegs(d).Some? && CurrentPc(d) == a
    ensures StepOver(p, d, a, env) ==
      var (d2, out) := StepCurrent(p, Disarmed(d, a), env);
      if !out.Done? then (d2, out)
      else
        var (d3, ok) := SetBp(d2, a);
        if ok then (d3, out) else (d2, Failed)
  {
    DisarmedInvisible(d, a);
    ForcePcIsNothing(Disarmed(d, a), a);
  }

  /** Stepping over keeps the table's addresses and the view; if the target ends during
      the step, re-arming fails and the caller gets an error instead of the status. */
  lemma StepOverTransparent(p: Platform, d: Dbg, a: Word, env: Env)
    requires Decodable(p.isa) && Consistent(d) && d.at.None? && a in d.bps
    requires CurrentRegs(d).Some? && CurrentPc(d) == a
    requires GoodStep(p, Disarmed(d, a), env)
    ensures var (d', out) := StepOver(p, d, a, env);
      if env.event.StopEvent? then
        && out.Done? && out.status.Stopped? && d'.last == Some(out.status)
        && Consistent(d') && d'.bps.Keys == d.bps.Keys
        && View(d') == Replay(p.isa, View(d), StepActs(p, Disarmed(d, a), env))
      else out == Failed && !d'.alive && d'.bps == d.bps - {a}
  {
    DisarmedInvisible(d, a);
    var d1 := Disarmed(d, a);
    assert a in d.target.mem;
    KeysBack(d.bps, a);
    StepOverUnfolds(p, d, a, env);
    hide Decodable, Consistent, View, GoodStep, StepOver, StepCurrent, Disarmed, Disable, Replay, StepActs;
    StepCurrentTransparent(p, d1, env);
    if env.event.StopEvent? {
      StepKeepsMapped(p, d1, env);
      SetBpConsistent(StepCurrent(p, d1, env).0, a);
    }
  }

  // ---------- the public commands

  lemma NoteLandingConsistent(d: Dbg)
    requires Consistent(d)
    ensures Consistent(NoteLanding(d)) && View(NoteLanding(d)) == View(d)
    ensures NoteLanding(d).bps == d.bps && NoteLanding(d).last == d.last
    ensures CurrentRegs(NoteLanding(d)) == CurrentRegs(d)
  {
  }

  /** Before a step-over, `at` is taken out of the session. */
  lemma TakeAt(d: Dbg)
    requires Consistent(d) && d.at.Some?
    ensures Consistent(d.(at := None)) && View(d.(at := None)) == View(d)
    ensures CurrentRegs(d).Some? && CurrentRegs(d.(at := None)) == CurrentRegs(d)
    ensures CurrentPc(d.(at := None)) == d.at.value
  {
  }

  ghost predicate GoodStepI(p: Platform, d: Dbg, env: Env) {
    if d.at.Some? then d.at.value in d.bps && GoodStep(p, Disarmed(d.(at := None), d.at.value), env)
    else GoodStep(p, d, env)
  }

  ghost function StepIActs(p: Platform, d: Dbg, env: Env): seq<Act>
    requires Consistent(d)
  {
    StepActs(p, if d.at.Some? then Disarmed(d.(at := None), d.at.value) else d, env)
  }

  lemma StepITransparent(p: Platform, d: Dbg, env: Env)
    requires Decodable(p.isa) && Consistent(d) && GoodStepI(p, d, env)
    ensures var (d', out) := StepI(p, d, env);
      && out != Panicked
      && (d'.alive <==> env.event.StopEvent?)
      && (d'.alive ==>
          && out.Done? && d'.last == Some(out.status) && Consistent(d') && d'.bps.Keys == d.bps.Keys
          && View(d') == Replay(p.isa, View(d), StepIActs(p, d, env)))
  {
    if d.at.Some? {
      TakeAt(d);
      StepOverTransparent(p, d.(at := None), d.at.value, env);
      if env.event.StopEvent? {
        NoteLandingConsistent(StepOver(p, d.(at := None), d.at.value, env).0);
      }
    } else {
      StepCurrentTransparent(p, d, env);
      if env.event.StopEvent? {
        NoteLandingConsistent(StepCurrent(p, d, env).0);
      }
    }
  }

  /** The session as the second resume of `cont` finds it. */
  function SteppedOver(p: Platform, d: Dbg, e1: Env): Dbg {
    if d.at.Some? then StepOver(p, d.(at := None), d.at.value, e1).0 else d
  }

  ghost predicate GoodCont(p: Platform, d: Dbg, e1: Env, e2: Env) {
    && (d.at.Some? ==> GoodStepI(p, d, e1))
    && (d.at.None? || e1.event.StopEvent? ==> GoodStint(p.isa, SteppedOver(p, d, e1), e2))
  }

  ghost function ContActs(p: Platform, d: Dbg, e1: Env, e2: Env): seq<Act>
    requires Consistent(d)
  {
    (if d.at.Some? then StepIActs(p, d, e1) else [])
    + [Ran(Executed(p.isa, SteppedOver(p, d, e1), e2))]
  }

  /** Does the target live through the resumes of `cont`? */
  predicate Survives(d: Dbg, e1: Env, e2: Env) {
    (d.at.Some? ==> e1.event.StopEvent?) && e2.event.StopEvent?
  }

  lemma ContMainTransparent(p: Platform, d: Dbg, env: Env)
    requires Decodable(p.isa) && Consistent(d) && GoodStint(p.isa, d, env)
    ensures var (d', out) := ContMain(p, d, env);
      && out.Done? && d'.last == Some(out.status) && d'.bps == d.bps
      && (d'.alive <==> env.event.StopEvent?) && (out.status.Stopped? <==> d'.alive)
      && (d'.alive ==>
          && Consistent(d')
          && View(d') == Replay(p.isa, View(d), [Ran(Executed(p.isa, d, env))]))
  {
    StintShape(p.isa, d, env);
    if env.event.StopEvent? {
      StintConsistent(p.isa, d, env);
      StintTransparent(p.isa, d, env);
      ReplayOne(p.isa, View(d), Ran(Executed(p.isa, d, env)));
    }
  }

  /** `cont`: never panics, keeps the table, and shows a run of the program. Its status
      is an error exactly when the target ends inside the step-over. */
  lemma ContTransparent(p: Platform, d: Dbg, e1: Env, e2: Env)
    requires Decodable(p.isa) && Consistent(d) && GoodCont(p, d, e1, e2)
    ensures var (d', out) := Cont(p, d, e1, e2);
      && out != Panicked
      && (out == Failed <==> d.at.Some? && !e1.event.StopEvent?)
      && (d'.alive <==> Survives(d, e1, e2))
      && (out.Done? ==> (out.status.Stopped? <==> d'.alive) && d'.bps.Keys == d.bps.Keys)
      && (d'.alive ==>
          && out.Done? && d'.last == Some(out.status) && Consistent(d')
          && View(d') == Replay(p.isa, View(d), ContActs(p, d, e1, e2)))
  {
    hide Decodable, Consistent, View, GoodStep, GoodStint, StepOver, ContMain, Replay, Executed, StepActs;
    hide CurrentRegs, CurrentPc, Disarmed;
    if d.at.Some? {
      TakeAt(d);
      StepOverTransparent(p, d.(at := None), d.at.value, e1);
      if e1.event.StopEvent? {
        var d1 := SteppedOver(p, d, e1);
        ContMainTransparent(p, d1, e2);
        ReplayConcat(p.isa, View(d), StepIActs(p, d, e1), [Ran(Executed(p.isa, d1, e2))]);
      }
    } else {
      ContMainTransparent(p, d, e2);
      assert [] + [Ran(Executed(p.isa, d, e2))] == [Ran(Executed(p.isa, d, e2))];
    }
  }

  lemma EndStatus(p: Platform, d: Dbg, env: Env)
    requires d.alive && !env.event.StopEvent?
    ensures ContMain(p, d, env).1 ==
      Done(match env.event case ExitEvent(code) => Exited(code) case KillEvent(signal) => Signaled(signal))
  {
    hide Run;
  }

  /** When the target ends in the second resume, its status is what `cont` returns. */
  lemma ContReportsEnd(p: Platform, d: Dbg, e1: Env, e2: Env)
    requires Decodable(p.isa) && Consistent(d) && GoodCont(p, d, e1, e2)
    requires (d.at.Some? ==> e1.event.StopEvent?) && !e2.event.StopEvent?
    ensures Cont(p, d, e1, e2).1 ==
      Done(match e2.event case ExitEvent(code) => Exited(code) case KillEvent(signal) => Signaled(signal))
  {
    if d.at.Some? {
      TakeAt(d);
      StepOverTransparent(p, d.(at := None), d.at.value, e1);
    }
    assert SteppedOver(p, d, e1).alive;
    EndStatus(p, SteppedOver(p, d, e1), e2);
    hide StepOver, ContMain, Consistent, GoodCont, View, Replay, Decodable, Disarmed, StepActs;
  }

  /** The session `finish` continues: its temporary breakpoint in place if needed. */
  function FinishBase(d: Dbg, ret: Word): Dbg {
    if ret in d.bps then d else SetBp(d, ret).0
  }

  ghost predicate GoodRunTo(p: Platform, d: Dbg, ret: Word, e1: Env, e2: Env) {
    ret in d.target.mem ==> GoodCont(p, FinishBase(d, ret), e1, e2)
  }

  ghost function RunToActs(p: Platform, d: Dbg, ret: Word, e1: Env, e2: Env): seq<Act>
    requires Consistent(d)
  {
    if ret in d.target.mem then
      assert Consistent(FinishBase(d, ret)) by { FinishBaseOk(d, ret); }
      ContActs(p, FinishBase(d, ret), e1, e2)
    else []
  }

  lemma FinishBaseOk(d: Dbg, ret: Word)
    requires Consistent(d) && ret in d.target.mem
    ensures Consistent(FinishBase(d, ret)) && View(FinishBase(d, ret)) == View(d)
    ensures FinishBase(d, ret).bps.Keys == d.bps.Keys + {ret}
    ensures FinishBase(d, ret).at == d.at
  {
    if ret !in d.bps {
      SetBpConsistent(d, ret);
    } else {
      KeysBack(d.bps, ret);
    }
  }

  lemma RemoveBpConsistent(d: Dbg, a: Word)
    requires Consistent(d)
    ensures var (d1, ok) := RemoveBp(d, a);
      ok && Consistent(d1) && View(d1) == View(d) && d1.bps == d.bps - {a} && d1.last == d.last
  {
    RemoveBpInvisible(d, a);
    RemoveKeeps(d, a);
    hide View, RemoveBp, TableOk, ListsExactly, WellFormed, CurrentRegs, CurrentPc;
  }

  /** Removing a breakpoint leaves threads, selection and status alone. */
  lemma RemoveKeeps(d: Dbg, a: Word)
    requires Consistent(d)
    ensures var d1 := RemoveBp(d, a).0;
      && d1.alive && d1.last == d.last && d1.threads == d.threads && d1.current == d.current
      && d1.target.threads == d.target.threads && d1.target.trapped == d.target.trapped
      && CurrentRegs(d1) == CurrentRegs(d) && CurrentPc(d1) == CurrentPc(d)
      && WellFormed(d1.target) && (d1.at == d.at || d1.at == None) && d1.at != Some(a)
  {
  }

  lemma WithdrawConsistent(d: Dbg, ret: Word, out: Outcome)
    requires out != Panicked && (out.Done? ==> (out.status.Stopped? <==> d.alive))
    requires d.alive ==> out.Done? && Consistent(d)
    ensures var (d', out') := Withdraw(d, ret, out);
      && out' != Panicked && d'.alive == d.alive
      && (d'.alive ==> Consistent(d') && d'.bps == d.bps - {ret} && View(d') == View(d))
  {
    if d.alive {
      RemoveBpConsistent(d, ret);
    }
  }

  /** `finish` without the computation of the return address. */
  lemma RunToUnfolds(p: Platform, d: Dbg, ret: Word, e1: Env, e2: Env)
    requires Consistent(d)
    ensures RunTo(p, d, ret, e1, e2) ==
      if ret !in d.target.mem then (d, Failed)
      else
        var (d2, out) := Cont(p, FinishBase(d, ret), e1, e2);
        if ret in d.bps then (d2, out) else Withdraw(d2, ret, out)
  {
  }

  /** A session that is over, or consistent with these breakpoints and this view. */
  ghost predicate Shows(d: Dbg, out: Outcome, bps: set<Word>, u: State) {
    out != Panicked && (d.alive ==> Consistent(d) && d.bps.Keys == bps && View(d) == u)
  }

  lemma ContFromBase(p: Platform, d: Dbg, ret: Word, e1: Env, e2: Env)
    requires Decodable(p.isa) && Consistent(d) && GoodRunTo(p, d, ret, e1, e2)
    requires ret in d.target.mem
    ensures var (d2, out) := Cont(p, FinishBase(d, ret), e1, e2);
      && Shows(d2, out, d.bps.Keys + {ret}, Replay(p.isa, View(d), RunToActs(p, d, ret, e1, e2)))
      && (out.Done? ==> (out.status.Stopped? <==> d2.alive))
      && (d2.alive ==> out.Done?)
  {
    FinishBaseOk(d, ret);
    ContTransparent(p, FinishBase(d, ret), e1, e2);
  }

  lemma WithdrawShows(d: Dbg, ret: Word, out: Outcome, bps: set<Word>, u: State)
    requires Shows(d, out, bps + {ret}, u) && ret !in bps
    requires (out.Done? ==> (out.status.Stopped? <==> d.alive)) && (d.alive ==> out.Done?)
    ensures Shows(Withdraw(d, ret, out).0, Withdraw(d, ret, out).1, bps, u)
  {
    WithdrawConsistent(d, ret, out);
    KeysLess(d.bps, ret);
  }

  /** `finish` leaves only the breakpoints that were there before. */
  lemma RunToTransparent(p: Platform, d: Dbg, ret: Word, e1: Env, e2: Env)
    requires Decodable(p.isa) && Consistent(d) && GoodRunTo(p, d, ret, e1, e2)
    ensures var (d', out) := RunTo(p, d, ret, e1, e2);
      Shows(d', out, d.bps.Keys, Replay(p.isa, View(d), RunToActs(p, d, ret, e1, e2)))
  {
    RunToUnfolds(p, d, ret, e1, e2);
    if ret in d.target.mem {
      var (d2, out) := Cont(p, FinishBase(d, ret), e1, e2);
      ContFromBase(p, d, ret, e1, e2);
      if ret in d.bps {
        KeysBack(d.bps, ret);
      } else {
        WithdrawShows(d2, ret, out, d.bps.Keys, Replay(p.isa, View(d), RunToActs(p, d, ret, e1, e2)));
      }
    }
  }
}
