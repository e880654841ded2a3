/** Exactness for a target with one thread: `stepi` executes one instruction, and `cont`
    stops in the first state whose PC is a user breakpoint. */
module Solo {
  import opened Words
  import opened Machine
  import opened Overlay
  import opened Engine
  import opened Transparency
  import opened Stops
  import opened Session

  function Rep(t: Tid, k: nat): (s: seq<Tid>)
    ensures |s| == k
  {
    if k == 0 then [] else [t] + Rep(t, k - 1)
  }

  lemma RepStep(isa: Isa, u: State, t: Tid, k: nat)
    requires k > 0
    ensures Rep(t, k)[0] == t && Rep(t, k)[1..] == Rep(t, k - 1)
    ensures Run(isa, u, Rep(t, k)) == Run(isa, Step(isa, u, t), Rep(t, k - 1))
  {}

  /** The unpatched state after `k` instructions of thread `t`. */
  function After(isa: Isa, u: State, t: Tid, k: nat): State {
    Run(isa, u, Rep(t, k))
  }

  /** A state the thread cannot leave without a stop: over, trapped, or at a breakpoint. */
  predicate Halts(u: State, t: Tid, bps: set<Word>) {
    t !in u.threads || t in u.trapped || u.threads[t].pc in bps
  }

  /** How many of `k` turns are taken before the first such state. */
  function StintLen(isa: Isa, u: State, t: Tid, bps: set<Word>, k: nat): (n: nat)
    ensures n <= k
    decreases k
  {
    if k == 0 || Halts(u, t, bps) then 0 else 1 + StintLen(isa, Step(isa, u, t), t, bps, k - 1)
  }

  /** `StintLen` is the first halting state: none before it, and it is one unless the
      turns ran out. */
  lemma {:induction false} StintLenIsFirst(isa: Isa, u: State, t: Tid, bps: set<Word>, k: nat)
    ensures var n := StintLen(isa, u, t, bps, k);
      && (forall i :: 0 <= i < n ==> !Halts(After(isa, u, t, i), t, bps))
      && (n < k ==> Halts(After(isa, u, t, n), t, bps))
    decreases k
  {
    hide Step, Halts;
    if k > 0 && !Halts(u, t, bps) {
      var u' := Step(isa, u, t);
      var n := StintLen(isa, u, t, bps, k);
      StintLenIsFirst(isa, u', t, bps, k - 1);
      RepStep(isa, u, t, n);
      assert After(isa, u, t, n) == After(isa, u', t, n - 1);
      forall i | 0 <= i < n
        ensures !Halts(After(isa, u, t, i), t, bps)
      {
        if i > 0 {
          RepStep(isa, u, t, i);
          assert !Halts(After(isa, u', t, i - 1), t, bps);
        }
      }
    }
  }

  lemma {:induction false} TrappedStays(isa: Isa, s: State, t: Tid, k: nat)
    requires t in s.trapped
    ensures Run(isa, s, Rep(t, k)) == s
    decreases k
  {
    if k > 0 {
      RepStep(isa, s, t, k);
      TrappedStays(isa, s, t, k - 1);
    }
  }

  lemma MovesIffRuns(s: State, saved: Memory, t: Tid)
    ensures Moves(s, saved, t) <==> !Halts(TrueState(s, saved), t, saved.Keys)
  {
  }

  /** A thread that cannot move executes nothing more; with a turn left it traps. */
  lemma {:induction false} SoloStuck(isa: Isa, s: State, saved: Memory, t: Tid, k: nat)
    requires WellFormed(s) && Armed(s.mem, saved) && !Moves(s, saved, t)
    ensures Effective(isa, s, saved, Rep(t, k)) == []
    ensures k > 0 && t in s.threads ==> t in Run(isa, s, Rep(t, k)).trapped
    decreases k
  {
    if k > 0 {
      RepStep(isa, s, t, k);
      var s' := Step(isa, s, t);
      StepKeepsShape(isa, s, t);
      TrapIsInvisible(isa, s, saved, t);
      MovesIffRuns(s, saved, t);
      MovesIffRuns(s', saved, t);
      SoloStuck(isa, s', saved, t, k - 1);
      if t in s'.trapped {
        TrappedStays(isa, s', t, k - 1);
      }
    }
  }

  /** The unpatched side of a move, seen from the next state `u'`. */
  lemma StintLenUnrolls(isa: Isa, u: State, u': State, t: Tid, bps: set<Word>, k: nat, n: nat)
    requires k > 0 && !Halts(u, t, bps) && u' == Step(isa, u, t)
    requires n == StintLen(isa, u, t, bps, k)
    requires CleanRun(isa, u, bps, Rep(t, n)) && t in After(isa, u, t, n).threads
    ensures n > 0 && n - 1 == StintLen(isa, u', t, bps, k - 1)
    ensures Clean(isa, u, bps, t)
    ensures CleanRun(isa, u', bps, Rep(t, n - 1)) && t in After(isa, u', t, n - 1).threads
  {
    RepStep(isa, u, t, n);
  }

  /** In the patched target the thread takes exactly the turns of `StintLen`, and then
      traps if a turn is left. */
  lemma {:induction false} SoloRuns(isa: Isa, s: State, u: State, saved: Memory, t: Tid, k: nat, n: nat)
    requires Decodable(isa) && WellFormed(s) && Armed(s.mem, saved)
    requires u == TrueState(s, saved) && n == StintLen(isa, u, t, saved.Keys, k)
    requires CleanRun(isa, u, saved.Keys, Rep(t, n)) && t in After(isa, u, t, n).threads
    ensures Effective(isa, s, saved, Rep(t, k)) == Rep(t, n)
    ensures n < k ==> t in Run(isa, s, Rep(t, k)).trapped
    decreases k
  {
    MovesIffRuns(s, saved, t);
    if k > 0 {
      if Moves(s, saved, t) {
        var u' := Step(isa, u, t);
        StintLenUnrolls(isa, u, u', t, saved.Keys, k, n);
        StepKeepsShape(isa, s, t);
        MoveIsTrue(isa, s, saved, t);
        SoloUnrolls(isa, s, saved, t, k);
        SoloRuns(isa, Step(isa, s, t), u', saved, t, k - 1, n - 1);
      } else {
        SoloStuck(isa, s, saved, t, k);
      }
    }
  }

  lemma SoloUnrolls(isa: Isa, s: State, saved: Memory, t: Tid, k: nat)
    requires k > 0 && Moves(s, saved, t)
    ensures Effective(isa, s, saved, Rep(t, k))
         == [t] + Effective(isa, Step(isa, s, t), saved, Rep(t, k - 1))
    ensures Run(isa, s, Rep(t, k)) == Run(isa, Step(isa, s, t), Rep(t, k - 1))
  {
    RepStep(isa, s, t, k);
  }

  // ---------- one resume of a one-thread target

  /** The wait ends because the one thread stopped itself: there are turns to spare, the
      thread is alive and alone, and the kernel reports the trap. */
  ghost predicate SelfStop(isa: Isa, d: Dbg, t: Tid, env: Env) {
    var k := |env.sched|;
    var n := StintLen(isa, View(d), t, d.bps.Keys, k);
    && env == Env(Rep(t, k), [t], StopEvent(SIGTRAP))
    && n < k
    && After(isa, View(d), t, n).threads.Keys == {t}
    && CleanRun(isa, View(d), d.bps.Keys, Rep(t, n))
  }

  lemma SelfStopIsGood(isa: Isa, d: Dbg, t: Tid, env: Env)
    requires Decodable(isa) && d.alive && TableOk(d) && SelfStop(isa, d, t, env)
    ensures GoodStint(isa, d, env)
    ensures Executed(isa, d, env) == Rep(t, StintLen(isa, View(d), t, d.bps.Keys, |env.sched|))
    ensures t in Raw(isa, d, env).trapped && Raw(isa, d, env).threads.Keys == {t}
  {
    SettledIsView(d);
    SavedIsTable(d);
    var s, saved := Settle(d.target), Saved(d.bps);
    SoloRuns(isa, s, View(d), saved, t, |env.sched|, StintLen(isa, View(d), t, saved.Keys, |env.sched|));
    RunSimulates(isa, s, saved, env.sched);
    var raw := Raw(isa, d, env);
    assert TrueState(raw, saved).threads.Keys == raw.threads.Keys;
    assert t in [t];
  }

  /** Such a resume stops exactly where the unpatched thread first reaches a breakpoint
      or its own `int3`, and records the breakpoint in the first case only. */
  lemma SelfStopShows(isa: Isa, d: Dbg, t: Tid, env: Env)
    requires Decodable(isa) && Consistent(d) && SelfStop(isa, d, t, env)
    ensures var n := StintLen(isa, View(d), t, d.bps.Keys, |env.sched|);
      var u, d' := After(isa, View(d), t, n), Stint(isa, d, env);
      && Consistent(d') && View(d') == Settle(u) && d'.bps == d.bps
      && d'.threads == [t] && d'.current == 0 && d'.last.Some?
      && (t !in u.trapped ==> u.threads[t].pc in d.bps && d'.at == Some(u.threads[t].pc)
                              && d'.last == Some(Stopped(SIGTRAP, u.threads[t].pc)))
      && (t in u.trapped ==> d'.at == d.at)
  {
    var n := StintLen(isa, View(d), t, d.bps.Keys, |env.sched|);
    var u := After(isa, View(d), t, n);
    SelfStopIsGood(isa, d, t, env);
    StintConsistent(isa, d, env);
    StintTransparent(isa, d, env);
    RawIsTrue(isa, d, env);
    StintLenIsFirst(isa, View(d), t, d.bps.Keys, |env.sched|);
    hide Decodable, StintLen, Consistent, GoodStint, Executed, Stint, Run;
    SelfStopReports(isa, d, t, env, u);
  }

  /** The report of such a stop, from the true state `u` behind it. */
  lemma SelfStopReports(isa: Isa, d: Dbg, t: Tid, env: Env, u: State)
    requires d.alive && TableOk(d) && TrueState(Raw(isa, d, env), Saved(d.bps)) == u
    requires t in Raw(isa, d, env).trapped && Raw(isa, d, env).threads.Keys == {t} && Halts(u, t, d.bps.Keys)
    requires env.listing == [t] && env.event == StopEvent(SIGTRAP)
    ensures var d' := Stint(isa, d, env);
      && t in u.threads && d'.bps == d.bps && d'.threads == [t] && d'.current == 0 && d'.last.Some?
      && (t !in u.trapped ==> u.threads[t].pc in d.bps && d'.at == Some(u.threads[t].pc)
                              && d'.last == Some(Stopped(SIGTRAP, u.threads[t].pc)))
      && (t in u.trapped ==> d'.at == d.at)
  {
    SavedIsTable(d);
    var d1 := Resume(isa, d, env);
    hide Run;
    assert u.threads[t] == TrueRegs(d1.target.threads[t], true, Saved(d.bps));
    assert t in u.trapped <==> !LooksTrapped(d1, t);
    assert d1.threads == [t] && d1.current == 0 && FirstHit(d1, []) == 0;
    assert [t][1..] == [];
  }

  // ---------- stepi

  /** The instruction at the PC is one `stepi` can handle: not an `int3` of the program,
      no thread started or ended, its successor among the candidates, and clear of
      the bytes patched elsewhere. */
  ghost predicate Steppable(p: Platform, d: Dbg, t: Tid) {
    var u := View(d);
    var u' := Step(p.isa, u, t);
    var candidates := Candidates(p, d, CurrentPc(d));
    && CurrentRegs(d).Some? && d.threads == [t]
    && CurrentPc(d) in u.mem && u.mem[CurrentPc(d)] != INT3
    && u'.threads.Keys == {t}
    && u'.threads[t].pc in candidates && u'.threads[t].pc in u.mem
    && Clean(p.isa, u, d.bps.Keys + Elems(candidates) - {CurrentPc(d)}, t)
  }

  /** The addresses at which a thread traps while `stepi` runs. */
  function ArmedWhileStepping(p: Platform, d: Dbg): set<Word> {
    d.bps.Keys + (set a | a in Candidates(p, d, CurrentPc(d)) && a in d.target.mem)
  }

  lemma CleanMono(isa: Isa, u: State, small: set<Word>, big: set<Word>, t: Tid)
    requires small <= big && Clean(isa, u, big, t)
    ensures Clean(isa, u, small, t)
  {
  }

  lemma SoleThread(d: Dbg, t: Tid)
    requires d.alive && ListsExactly(d.threads, d.target.threads) && d.threads == [t]
    requires CurrentRegs(d).Some?
    ensures d.current == 0 && View(d).threads.Keys == {t} && CurrentPc(d) == View(d).threads[t].pc
  {
    assert t in d.threads;
    forall x | x in d.target.threads
      ensures x == t
    {
      assert x in d.threads;
    }
  }

  /** One instruction, or none if the PC itself is armed while stepping. */
  lemma StepLen(p: Platform, d: Dbg, t: Tid, k: nat)
    requires Consistent(d) && Steppable(p, d, t) && k >= 2
    ensures var n := StintLen(p.isa, View(d), t, ArmedWhileStepping(p, d), k);
      && n == (if CurrentPc(d) in ArmedWhileStepping(p, d) then 0 else 1)
      && After(p.isa, View(d), t, n).threads.Keys == {t}
      && t !in After(p.isa, View(d), t, n).trapped
      && CleanRun(p.isa, View(d), ArmedWhileStepping(p, d), Rep(t, n))
  {
    SoleThread(d, t);
    SavedIsTable(d);
    assert View(d).mem.Keys == d.target.mem.Keys;
    var u, u' := View(d), Step(p.isa, View(d), t);
    var armed := ArmedWhileStepping(p, d);
    assert u'.threads[t].pc in armed && u'.trapped == {};
    if CurrentPc(d) !in armed {
      CleanMono(p.isa, u, armed, d.bps.Keys + Elems(Candidates(p, d, CurrentPc(d))) - {CurrentPc(d)}, t);
    }
    assert StintLen(p.isa, u', t, armed, k - 1) == 0;
    assert Run(p.isa, u', []) == u';
    RepStep(p.isa, u, t, 1);
  }

  predicate TrapEnv(env: Env, t: Tid) {
    env == Env(Rep(t, |env.sched|), [t], StopEvent(SIGTRAP))
  }

  /** The state after `n` instructions is shown, with the stop reported at its PC. */
  ghost predicate ShowsAfter(p: Platform, d: Dbg, t: Tid, n: nat, d': Dbg, out: Outcome) {
    var u := After(p.isa, View(d), t, n);
    && Consistent(d') && View(d') == Settle(u)
    && d'.threads == [t] && d'.current == 0 && t in u.threads
    && out == Done(Stopped(SIGTRAP, u.threads[t].pc)) && d'.last == Some(out.status)
  }

  lemma PreparedStop(p: Platform, d: Dbg, t: Tid, env: Env)
    requires Decodable(p.isa) && Consistent(d) && Steppable(p, d, t)
    requires TrapEnv(env, t) && |env.sched| >= 2
    ensures Consistent(Prepared(p, d)) && View(Prepared(p, d)) == View(d)
    ensures Prepared(p, d).bps.Keys == ArmedWhileStepping(p, d)
    ensures SelfStop(p.isa, Prepared(p, d), t, env)
    ensures GoodStep(p, d, env)
  {
    var candidates := Candidates(p, d, CurrentPc(d));
    PlantInvisible(d, candidates);
    PlantArms(d, candidates);
    PlantConsistent(d, candidates);
    StepLen(p, d, t, |env.sched|);
    SelfStopIsGood(p.isa, Prepared(p, d), t, env);
  }

  /** The single step without a breakpoint at the PC: exactly one instruction, unless
      the PC is itself armed while stepping, in which case none. */
  lemma StepCurrentExact(p: Platform, d: Dbg, t: Tid, env: Env)
    requires Decodable(p.isa) && Consistent(d) && Steppable(p, d, t)
    requires TrapEnv(env, t) && |env.sched| >= 2
    ensures var n := if CurrentPc(d) in ArmedWhileStepping(p, d) then 0 else 1;
      var (d', out) := StepCurrent(p, d, env);
      && ShowsAfter(p, d, t, n, d', out) && d'.bps == d.bps
      && d'.at == (if CurrentPc(d') in d.bps then Some(CurrentPc(d')) else None)
  {
    var candidates := Candidates(p, d, CurrentPc(d));
    var (d1, planted) := Plant(d, candidates);
    PreparedStop(p, d, t, env);
    StepLen(p, d, t, |env.sched|);
    SelfStopShows(p.isa, d1, t, env);
    var d2 := Stint(p.isa, d1, env);
    StepCurrentTransparent(p, d, env);
    PlantInvisible(d, candidates);
    UnplantInvisible(d2, planted);
    SoleThread(d2, t);
    LandingIsTable(d, d1, planted, d2.at.value);
  }

  lemma LandingIsTable(d: Dbg, d1: Dbg, planted: seq<Word>, a: Word)
    requires d1.bps - Elems(planted) == d.bps && a in d1.bps
    ensures a in planted <==> a !in d.bps
  {
    assert (d1.bps - Elems(planted)).Keys == d.bps.Keys;
  }

  /** `stepi` cannot move: the PC is one of its own candidates (an instruction that may
      jump to itself), or stands at a breakpoint the debugger did not record as a stop. */
  predicate Stalls(p: Platform, d: Dbg) {
    CurrentPc(d) in Candidates(p, d, CurrentPc(d)) || (d.at.None? && CurrentPc(d) in d.bps)
  }

  lemma SameCandidates(p: Platform, d: Dbg, d1: Dbg, pc: Word)
    requires Consistent(d) && Consistent(d1) && View(d) == View(d1)
    ensures Candidates(p, d, pc) == Candidates(p, d1, pc)
  {
    ReadShowsView(d, pc, 16);
    ReadShowsView(d1, pc, 16);
  }

  /** Disarming the breakpoint at the PC keeps the instruction steppable. */
  lemma DisarmedSteppable(p: Platform, d: Dbg, t: Tid)
    requires Consistent(d) && d.at.Some? && Steppable(p, d, t)
    ensures var d1 := Disarmed(d.(at := None), d.at.value);
      && Consistent(d1) && View(d1) == View(d) && d1.bps == d.bps - {d.at.value} && d1.at.None?
      && CurrentPc(d1) == CurrentPc(d) == d.at.value
      && Steppable(p, d1, t)
      && (CurrentPc(d1) in ArmedWhileStepping(p, d1) <==> Stalls(p, d))
  {
    TakeAt(d);
    DisarmedInvisible(d.(at := None), d.at.value);
    var d1 := Disarmed(d.(at := None), d.at.value);
    SameCandidates(p, d, d1, CurrentPc(d));
    var candidates := Candidates(p, d, CurrentPc(d));
    CleanMono(p.isa, View(d), d1.bps.Keys + Elems(candidates) - {CurrentPc(d)},
              d.bps.Keys + Elems(candidates) - {CurrentPc(d)}, t);
  }

  /** Re-arming after the step changes neither the view nor where the step landed. */
  lemma RearmShows(p: Platform, d: Dbg, d1: Dbg, t: Tid, n: nat, d2: Dbg, out: Outcome, a: Word)
    requires ShowsAfter(p, d1, t, n, d2, out) && View(d1) == View(d)
    requires a in d.bps && d1.bps == d.bps - {a} && d2.bps == d1.bps && a in d2.target.mem
    requires d2.at == if CurrentPc(d2) in d1.bps then Some(CurrentPc(d2)) else None
    ensures var d' := SetBp(d2, a).0;
      && ShowsAfter(p, d, t, n, d', out) && d'.bps.Keys == d.bps.Keys
      && d'.at == (if CurrentPc(d') in d.bps.Keys - {a} then Some(CurrentPc(d')) else None)
  {
    SetBpConsistent(d2, a);
    KeysBack(d.bps, a);
    KeysLess(d.bps, a);
    SetKeepsPc(d2, a);
    hide SetBp, View, Consistent, CurrentPc, CurrentRegs, After, Settle;
  }

  lemma SetKeepsPc(d: Dbg, a: Word)
    ensures CurrentPc(SetBp(d, a).0) == CurrentPc(d)
  {
  }

  lemma StepOverMapped(p: Platform, d: Dbg, d1: Dbg, env: Env)
    requires Decodable(p.isa) && Consistent(d) && d.at.Some? && d1 == Disarmed(d.(at := None), d.at.value)
    requires GoodStep(p, d1, env) && env.event.StopEvent?
    ensures d.at.value in StepCurrent(p, d1, env).0.target.mem
  {
    TakeAt(d);
    DisarmedInvisible(d.(at := None), d.at.value);
    StepKeepsMapped(p, d1, env);
    assert d.at.value in d.target.mem;
  }

  lemma StepOverReduces(p: Platform, d: Dbg, t: Tid, env: Env)
    requires Decodable(p.isa) && Consistent(d) && d.at.Some? && Steppable(p, d, t)
    requires TrapEnv(env, t) && |env.sched| >= 2
    ensures var (d2, out) := StepCurrent(p, Disarmed(d.(at := None), d.at.value), env);
      && d.at.value !in d2.bps && d.at.value in d2.target.mem
      && StepOver(p, d.(at := None), d.at.value, env) == (SetBp(d2, d.at.value).0, out)
  {
    var a, d0 := d.at.value, d.(at := None);
    TakeAt(d);
    DisarmedSteppable(p, d, t);
    PreparedStop(p, Disarmed(d0, a), t, env);
    StepOverMapped(p, d, Disarmed(d0, a), env);
    StepCurrentTransparent(p, Disarmed(d0, a), env);
    StepOverUnfolds(p, d0, a, env);
  }

  /** The step-over moves one instruction (or stalls) and re-arms the breakpoint. */
  lemma StepOverExact(p: Platform, d: Dbg, t: Tid, env: Env, d': Dbg, out: Outcome)
    requires Decodable(p.isa) && Consistent(d) && d.at.Some? && Steppable(p, d, t)
    requires TrapEnv(env, t) && |env.sched| >= 2
    requires (d', out) == StepOver(p, d.(at := None), d.at.value, env)
    ensures ShowsAfter(p, d, t, if Stalls(p, d) then 0 else 1, d', out)
    ensures d'.bps.Keys == d.bps.Keys
    ensures d'.at == if CurrentPc(d') in d.bps.Keys - {d.at.value} then Some(CurrentPc(d')) else None
  {
    var a, d1 := d.at.value, Disarmed(d.(at := None), d.at.value);
    DisarmedSteppable(p, d, t);
    StepCurrentExact(p, d1, t, env);
    StepOverReduces(p, d, t, env);
    RearmShows(p, d, d1, t, if Stalls(p, d) then 0 else 1, StepCurrent(p, d1, env).0, out, a);
  }

  lemma LandingShows(p: Platform, d: Dbg, t: Tid, n: nat, d1: Dbg, out: Outcome)
    requires ShowsAfter(p, d, t, n, d1, out)
    requires d1.at.Some? ==> d1.at.value == CurrentPc(d1)
    ensures var d' := NoteLanding(d1);
      && ShowsAfter(p, d, t, n, d', out) && d'.bps == d1.bps
      && d'.at == (if CurrentPc(d') in d1.bps then Some(CurrentPc(d')) else None)
  {
    NoteLandingConsistent(d1);
    SoleThreadOf(d1, t);
  }

  lemma SoleThreadOf(d: Dbg, t: Tid)
    requires Consistent(d) && d.threads == [t] && d.current == 0
    ensures CurrentRegs(d) == Some(d.target.threads[t])
  {
    assert t in d.threads;
  }

  /** `stepi` on a one-thread target executes exactly one instruction of the unpatched
      program, except where it stalls and executes none; it keeps the breakpoints and
      records the landing at one. */
  lemma StepIExact(p: Platform, d: Dbg, t: Tid, env: Env)
    requires Decodable(p.isa) && Consistent(d) && Steppable(p, d, t)
    requires TrapEnv(env, t) && |env.sched| >= 2
    ensures var (d', out) := StepI(p, d, env);
      && ShowsAfter(p, d, t, if Stalls(p, d) then 0 else 1, d', out)
      && d'.bps.Keys == d.bps.Keys
      && d'.at == (if CurrentPc(d') in d.bps then Some(CurrentPc(d')) else None)
  {
    var n := if Stalls(p, d) then 0 else 1;
    if d.at.Some? {
      var (d1, out) := StepOver(p, d.(at := None), d.at.value, env);
      StepOverExact(p, d, t, env, d1, out);
      LandingShows(p, d, t, n, d1, out);
    } else {
      var (d1, out) := StepCurrent(p, d, env);
      StepCurrentExact(p, d, t, env);
      SavedIsTable(d);
      LandingShows(p, d, t, n, d1, out);
    }
  }

  // ---------- cont

  /** `SelfStop` in terms of the program alone. */
  ghost predicate RunsToStop(isa: Isa, u: State, bps: set<Word>, t: Tid, env: Env) {
    var n := StintLen(isa, u, t, bps, |env.sched|);
    && TrapEnv(env, t) && n < |env.sched|
    && After(isa, u, t, n).threads.Keys == {t}
    && CleanRun(isa, u, bps, Rep(t, n))
  }

  /** The session shows the state after `k` instructions: at a breakpoint, recorded and
      reported, or past an `int3` of the program; no state from `lo` up to there is. */
  ghost predicate StopsFirst(isa: Isa, u0: State, bps: set<Word>, t: Tid, lo: nat, k: nat, d': Dbg, out: Outcome) {
    var u := After(isa, u0, t, k);
    && Consistent(d') && View(d') == Settle(u) && d'.bps.Keys == bps && out.Done?
    && t in u.threads
    && (forall i :: lo <= i < k ==> !Halts(After(isa, u0, t, i), t, bps))
    && (if t in u.trapped then d'.at == None
        else u.threads[t].pc in bps && d'.at == Some(u.threads[t].pc)
             && out == Done(Stopped(SIGTRAP, u.threads[t].pc)))
  }

  /** The second resume of `cont`, from wherever the first one left the target. */
  lemma ContMainExact(p: Platform, d: Dbg, t: Tid, env: Env)
    requires Decodable(p.isa) && Consistent(d)
    requires RunsToStop(p.isa, View(d), d.bps.Keys, t, env)
    requires d.at.Some? ==> Halts(View(d), t, d.bps.Keys)
    ensures var n := StintLen(p.isa, View(d), t, d.bps.Keys, |env.sched|);
      var (d', out) := ContMain(p, d, env);
      StopsFirst(p.isa, View(d), d.bps.Keys, t, 0, n, d', out)
  {
    assert SelfStop(p.isa, d, t, env);
    SelfStopShows(p.isa, d, t, env);
    StintLenIsFirst(p.isa, View(d), t, d.bps.Keys, |env.sched|);
  }

  /** The two resumes of `cont` as one run of the program. */
  lemma JoinRuns(isa: Isa, u0: State, bps: set<Word>, t: Tid, m: nat, n: nat, d': Dbg, out: Outcome)
    requires m <= 1 && StopsFirst(isa, After(isa, u0, t, m), bps, t, 0, n, d', out)
    ensures StopsFirst(isa, u0, bps, t, m, m + n, d', out)
  {
    var u1 := After(isa, u0, t, m);
    forall i | m <= i <= m + n
      ensures After(isa, u0, t, i) == After(isa, u1, t, i - m)
    {
      AfterSplits(isa, u0, t, m, i);
    }
  }

  lemma AfterSplits(isa: Isa, u0: State, t: Tid, m: nat, i: nat)
    requires m <= 1 && m <= i
    ensures After(isa, u0, t, i) == After(isa, After(isa, u0, t, m), t, i - m)
  {
    if m == 1 {
      RepStep(isa, u0, t, i);
      RepStep(isa, u0, t, 1);
      assert Run(isa, Step(isa, u0, t), []) == Step(isa, u0, t);
    }
  }

  lemma StepLenUntrapped(p: Platform, d: Dbg, t: Tid, m: nat)
    requires Consistent(d) && Steppable(p, d, t) && m <= 1
    ensures After(p.isa, View(d), t, m).trapped == {}
  {
    SoleThread(d, t);
    if m == 1 {
      RepStep(p.isa, View(d), t, 1);
      assert Run(p.isa, Step(p.isa, View(d), t), []) == Step(p.isa, View(d), t);
    }
  }

  /** What the step-over of `cont` leaves for the second resume. */
  lemma StepOverHandsOn(p: Platform, d: Dbg, t: Tid, env: Env, d1: Dbg, out: Outcome)
    requires Decodable(p.isa) && Consistent(d) && d.at.Some? && Steppable(p, d, t)
    requires TrapEnv(env, t) && |env.sched| >= 2
    requires (d1, out) == StepOver(p, d.(at := None), d.at.value, env)
    ensures out.Done? && d1.last == Some(out.status) && out.status.Stopped?
    ensures Consistent(d1) && d1.bps.Keys == d.bps.Keys
    ensures View(d1) == After(p.isa, View(d), t, if Stalls(p, d) then 0 else 1)
    ensures d1.at.Some? ==> Halts(View(d1), t, d.bps.Keys)
  {
    StepOverExact(p, d, t, env, d1, out);
    StepLenUntrapped(p, d, t, if Stalls(p, d) then 0 else 1);
    SoleThreadOf(d1, t);
  }

  /** `cont` on a one-thread target stopped at a breakpoint stops in the first state of
      the unpatched run, after at least one instruction, whose PC is a breakpoint (the
      landing of the first instruction included) or which has run into an `int3` of the
      program, with the PC at the breakpoint. Where `stepi` would stall, it stays. */
  lemma ContExact(p: Platform, d: Dbg, t: Tid, e1: Env, e2: Env)
    requires Decodable(p.isa) && Consistent(d) && d.at.Some? && Steppable(p, d, t)
    requires TrapEnv(e1, t) && |e1.sched| >= 2
    requires RunsToStop(p.isa, After(p.isa, View(d), t, if Stalls(p, d) then 0 else 1), d.bps.Keys, t, e2)
    ensures var m := if Stalls(p, d) then 0 else 1;
      var n := StintLen(p.isa, After(p.isa, View(d), t, m), t, d.bps.Keys, |e2.sched|);
      var (d', out) := Cont(p, d, e1, e2);
      StopsFirst(p.isa, View(d), d.bps.Keys, t, m, m + n, d', out)
  {
    hide *;
    var (d1, out) := StepOver(p, d.(at := None), d.at.value, e1);
    StepOverHandsOn(p, d, t, e1, d1, out);
    ContGoesOn(p, d, e1, e2, d1, out);
    var m := if Stalls(p, d) then 0 else 1;
    assert View(d1) == After(p.isa, View(d), t, m);
    ContFrom(p, d, d1, t, m, e2);
  }

  lemma ContGoesOn(p: Platform, d: Dbg, e1: Env, e2: Env, d1: Dbg, out: Outcome)
    requires d.at.Some? && (d1, out) == StepOver(p, d.(at := None), d.at.value, e1)
    requires out.Done? && d1.last == Some(out.status) && out.status.Stopped?
    ensures Cont(p, d, e1, e2) == ContMain(p, d1, e2)
  {
    hide StepOver, ContMain;
  }

  lemma ContFrom(p: Platform, d: Dbg, d1: Dbg, t: Tid, m: nat, env: Env)
    requires Decodable(p.isa) && Consistent(d1) && d1.bps.Keys == d.bps.Keys && m <= 1
    requires View(d1) == After(p.isa, View(d), t, m)
    requires RunsToStop(p.isa, View(d1), d.bps.Keys, t, env)
    requires d1.at.Some? ==> Halts(View(d1), t, d.bps.Keys)
    ensures var n := StintLen(p.isa, View(d1), t, d.bps.Keys, |env.sched|);
      var (d', out) := ContMain(p, d1, env);
      StopsFirst(p.isa, View(d), d.bps.Keys, t, m, m + n, d', out)
  {
    hide *;
    ContMainExact(p, d1, t, env);
    var n := StintLen(p.isa, View(d1), t, d.bps.Keys, |env.sched|);
    JoinRuns(p.isa, View(d), d.bps.Keys, t, m, n, ContMain(p, d1, env).0, ContMain(p, d1, env).1);
  }
}
