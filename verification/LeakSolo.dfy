/** For a one-thread program: when the leak tracker's table is the program's heap. A stop is
    one call or return exactly if the thread, once it has left the stop, reaches an armed
    address before it is back there. */
module LeakSolo {
  import opened Words
  import opened Machine
  import opened Engine
  import opened Transparency
  import opened Stops
  import opened Session
  import opened Solo
  import opened Passes
  import opened SoloPasses
  import opened LeakTracking
  import opened LeakHeap
  import opened LeakCalls
  import opened LeakRuns
  import opened LeakBalance
  import opened LeakCommands
  import LeakSession

  /** The session has the one thread `x`, and the `cont` gives turns to no other. */
  ghost predicate OneThread(p: Platform, d: Dbg, x: Tid, e1: Env, e2: Env) {
    d.threads == [x] && GoodCont(p, d, e1, e2) && Alone(e1, x) && Alone(e2, x)
  }

  /** While the stop's breakpoint is out, the thread leaves it and is not back before it
      reaches a temporary or another breakpoint; if the breakpoint has gone for good, the
      thread gets a turn. */
  predicate LeavesStop(p: Platform, d: Dbg, x: Tid, e1: Env, e2: Env) {
    if d.at.None? then e2.sched != []
    else
      && d.at.value in d.bps
      && Leaves(p.isa, View(d), x, SteppingAt(p, d).bps.Keys, |e1.sched|, d.at.value)
  }

  // ---------- one stop

  lemma OnlyThisAlone(c: Allocator, isa: Isa, u: State, x: Tid, n: nat, h: Heap, e: HeapEvent)
    requires Runs(u, x) && Turn(c, u, x, h) == Some(e)
    ensures var pc := u.threads[x].pc;
      OnlyThis(c, isa, u, Rep(x, n), pc, h, e)
      <==> n > 0 && (pc in Places(c, LeakHeap.After(h, e)) ==> TurnsAt(isa, u, Rep(x, n), pc) == 1)
  {
    hide Places, Turn, LeakHeap.After, Step;
    if n > 0 {
      RepStep(isa, u, x, n);
    }
  }

  lemma StageAlone(p: Platform, d: Dbg, x: Tid, e1: Env, e2: Env)
    requires Decodable(p.isa) && Consistent(d) && OneThread(p, d, x, e1, e2)
    ensures d.at.Some? ==> d.at.value in d.bps
    ensures d.at.Some? ==>
      Stage(p, d, e1, e2) == Rep(x, StintLen(p.isa, View(d), x, SteppingAt(p, d).bps.Keys, |e1.sched|))
    ensures d.at.None? ==>
      Stage(p, d, e1, e2) == Rep(x, StintLen(p.isa, View(d), x, d.bps.Keys, |e2.sched|))
  {
    assert d.at.Some? ==> d.at.value in d.bps;
    hide Decodable, View, Executed, CleanRun, StintLen, Alone, SteppingAt;
    if d.at.Some? {
      hide Consistent, GoodCont;
      FirstAlone(p, d, x, e1, e2);
    } else {
      ExecutedAlone(p.isa, d, e2, x);
    }
  }

  lemma StillPending(t: Tracker, d: Dbg, r: Regs)
    requires t.enabled && CurrentRegs(d) == Some(r) && WhereIs(t, r.pc) == AtReturn
    requires Consistent(d) && d.at.Some? && OnStop(t, d).1.at.Some?
    ensures r.pc in OnStop(t, d).0.pending
  {
    hide PopReturn;
  }

  lemma StillPlace(c: Allocator, t1: Tracker, h1: Heap, pc: Word)
    requires PendingOk(t1, h1) && (pc in EntriesIn(c) || pc in t1.pending)
    ensures pc in Places(c, h1)
  {
    if pc !in EntriesIn(c) {
      assert InFlight(h1, pc) != {};
      var id :| id in InFlight(h1, pc);
      assert h1.calls[id].info.callSite == pc;
    }
  }

  /** A stop whose breakpoint stays is a place of the heap to come. */
  lemma StaysPlace(t: Tracker, d: Dbg, h: Heap, e: HeapEvent)
    requires Consistent(d) && d.at.Some? && Ready(t, d) && OnStop(t, d).1.at.Some?
    requires Tracks(t, h) && Legal(h, e) && OnStop(t, d).0 == Track(t, h, e)
    ensures CurrentPc(d) in Places(AllocatorOf(t), LeakHeap.After(h, e))
  {
    var r := CurrentRegs(d).value;
    EntryIff(t, r.pc);
    if WhereIs(t, r.pc) == AtReturn {
      StillPending(t, d, r);
    }
    PendStep(t, h, e);
    hide Consistent, ReadWord, Tracks, OnStop, WhereIs, EntriesIn, Places, PendingOk, Track, LeakHeap.After;
    StillPlace(AllocatorOf(t), Track(t, h, e), LeakHeap.After(h, e), r.pc);
  }

  /** For one thread, wherever the instruction at the stop leads: the tracker's stop is the
      one event of the `cont` if and only if the thread leaves the stop before it is back. */
  lemma CarriedOnceIff(p: Platform, t: Tracker, d: Dbg, h: Heap, x: Tid, e1: Env, e2: Env, user: set<Word>)
    requires Decodable(p.isa) && Consistent(d) && LeakSession.Booked(t, d.bps.Keys, user) && Tracks(t, h)
    requires Ready(t, d) && d.at.Some? && OneThread(p, OnStop(t, d).1, x, e1, e2)
    ensures Consistent(OnStop(t, d).1) && Announced(t, d, h).Some?
    ensures CarriedOut(p, t, d, h, Announced(t, d, h).value, e1, e2) <==> LeavesStop(p, OnStop(t, d).1, x, e1, e2)
    ensures Heard(p, t, d, h, e1, e2) == [Announced(t, d, h).value] <==> LeavesStop(p, OnStop(t, d).1, x, e1, e2)
  {
    StopBetween(t, d, h, user);
    var d1, r := OnStop(t, d).1, CurrentRegs(d).value;
    var e := Announced(t, d, h).value;
    CarriedIff(p, t, d, h, e1, e2, user);
    if d1.at.Some? {
      StaysPlace(t, d, h, e);
    }
    SelectedRuns(d, d.threads[d.current], r);
    OnlyOne(d1, x);
    SelectedAt(d1, r);
    hide Decodable, Consistent, View, OnStop, Ready, GoodCont, Stage, Top, LeakSession.Booked, Tracks;
    hide Heard, Places, LeakHeap.After, OnlyThis, TurnsAtStop, CallsIn;
    OnceIff(AllocatorOf(t), p, d1, x, h, e, e1, e2);
  }

  lemma OnlyOne(d: Dbg, x: Tid)
    requires CurrentRegs(d).Some? && d.current < |d.threads|
    ensures d.threads == [x] ==> d.threads[d.current] == x
  {
  }

  lemma OnceIff(c: Allocator, p: Platform, d: Dbg, x: Tid, h: Heap, e: HeapEvent, e1: Env, e2: Env)
    requires Decodable(p.isa) && Consistent(d) && OneThread(p, d, x, e1, e2)
    requires Runs(View(d), x) && Turn(c, View(d), x, h) == Some(e)
    requires d.at.Some? ==> d.at.value == View(d).threads[x].pc
    requires d.at.None? ==> View(d).threads[x].pc !in d.bps
    requires d.at.Some? <==> View(d).threads[x].pc in Places(c, LeakHeap.After(h, e))
    ensures OnlyThis(c, p.isa, View(d), Stage(p, d, e1, e2), View(d).threads[x].pc, h, e)
       <==> LeavesStop(p, d, x, e1, e2)
  {
    StageAlone(p, d, x, e1, e2);
    hide Decodable, Consistent, View, GoodCont, Stage, Turn, Places, LeakHeap.After, OnlyThis, TurnsAt, Leaves;
    if d.at.Some? {
      var off, pc := SteppingAt(p, d).bps.Keys, View(d).threads[x].pc;
      hide SteppingAt, StintLen;
      OnlyThisAlone(c, p.isa, View(d), x, StintLen(p.isa, View(d), x, off, |e1.sched|), h, e);
      LeavesIff(p.isa, View(d), x, off, |e1.sched|, pc);
      NoTurnsAt(p.isa, View(d), pc);
    } else {
      OnlyThisAlone(c, p.isa, View(d), x, StintLen(p.isa, View(d), x, d.bps.Keys, |e2.sched|), h, e);
    }
  }

  lemma NoTurnsAt(isa: Isa, u: State, a: Word)
    ensures TurnsAt(isa, u, [], a) == 0
  {
  }

  lemma RepAlone(x: Tid, n: nat)
    ensures forall y :: y in Rep(x, n) ==> y == x
  {
  }

  lemma TrapAlone(env: Env, x: Tid)
    requires TrapEnv(env, x)
    ensures Alone(env, x)
  {
    RepAlone(x, |env.sched|);
  }

  lemma RunAlone(isa: Isa, u: State, bps: set<Word>, x: Tid, env: Env)
    requires RunsToStop(isa, u, bps, x, env)
    ensures Alone(env, x)
  {
    TrapAlone(env, x);
  }

  lemma SecondGood(p: Platform, d: Dbg, x: Tid, env: Env)
    requires Decodable(p.isa) && Consistent(d) && RunsToStop(p.isa, View(d), d.bps.Keys, x, env)
    ensures GoodStint(p.isa, d, env) && env.event.StopEvent?
  {
    SelfStopIsGood(p.isa, d, x, env);
  }

  /** A stop whose instruction leads to a candidate other than itself is always left in
      time: what a resume through an import stub, an indirect jump, does not have. */
  lemma SteppableLeavesStop(p: Platform, d: Dbg, x: Tid, e1: Env, e2: Env)
    requires Decodable(p.isa) && Consistent(d) && d.at.Some? && Steppable(p, d, x) && !Stalls(p, d)
    requires TrapEnv(e1, x) && |e1.sched| >= 2
    requires RunsToStop(p.isa, Solo.After(p.isa, View(d), x, 1), d.bps.Keys, x, e2)
    ensures OneThread(p, d, x, e1, e2) && LeavesStop(p, d, x, e1, e2)
  {
    SteppableShape(p, d, x);
    hide Decodable, Consistent, View, Steppable, Stalls, GoodStint, GoodStepI, RunsToStop, Leaves, SteppingAt;
    hide SteppedOver, TrapEnv, Alone, Solo.After;
    TrapAlone(e1, x);
    SteppableLeaves(p, d, x, e1);
    SteppedGood(p, d, x, e1, e2);
  }

  lemma SteppableShape(p: Platform, d: Dbg, x: Tid)
    requires Consistent(d) && d.at.Some? && Steppable(p, d, x)
    ensures d.at.value in d.bps && d.threads == [x]
  {
  }

  lemma SteppedGood(p: Platform, d: Dbg, x: Tid, e1: Env, e2: Env)
    requires Decodable(p.isa) && Consistent(d) && d.at.Some? && Steppable(p, d, x) && !Stalls(p, d)
    requires TrapEnv(e1, x) && |e1.sched| >= 2
    requires RunsToStop(p.isa, Solo.After(p.isa, View(d), x, 1), d.bps.Keys, x, e2)
    ensures GoodStint(p.isa, SteppedOver(p, d, e1), e2) && Alone(e2, x)
  {
    RunAlone(p.isa, Solo.After(p.isa, View(d), x, 1), d.bps.Keys, x, e2);
    hide Decodable, Consistent, View, Steppable, Stalls, GoodStint, RunsToStop, StepOver, Solo.After;
    var (d1, out) := StepOver(p, d.(at := None), d.at.value, e1);
    StepOverHandsOn(p, d, x, e1, d1, out);
    SecondGood(p, d1, x, e2);
  }

  // ---------- whole hidden runs of a one-thread program

  /** At every stop of the run that is the tracker's, the thread leaves it in time. */
  ghost predicate SoloRun(p: Platform, t: Tracker, d: Dbg, status: Status, envs: seq<(Env, Env)>, x: Tid)
    decreases |envs|
  {
    if !status.Stopped? || !d.alive || OnStop(t, d).2 == Some(false) then true
    else
      var (t1, d1, _) := OnStop(t, d);
      && Ready(t, d) && d.at.Some? && envs != []
      && OneThread(p, d1, x, envs[0].0, envs[0].1) && LeavesStop(p, d1, x, envs[0].0, envs[0].1)
      && var (d2, out) := Cont(p, d1, envs[0].0, envs[0].1);
        out.Done? ==> SoloRun(p, t1, d2, out.status, envs[1..], x)
  }

  lemma {:induction false} SoloCarried(p: Platform, t: Tracker, d: Dbg, h: Heap, status: Status,
                                       envs: seq<(Env, Env)>, x: Tid, user: set<Word>)
    requires Decodable(p.isa) && Tracks(t, h) && SoloRun(p, t, d, status, envs, x)
    requires status.Stopped? ==> d.alive
    requires d.alive ==> Consistent(d) && LeakSession.Booked(t, d.bps.Keys, user)
    requires Plausible(h, CallsMade(p, t, d, h, status, envs))
    ensures AllCarried(p, t, d, h, status, envs)
    decreases |envs|
  {
    if status.Stopped? && OnStop(t, d).2 != Some(false) {
      var (t1, d1, _) := OnStop(t, d);
      hide Decodable, Consistent, View, OnStop, Cont, GoodCont, LeavesStop, Alone, Tracks, LeakSession.Booked;
      hide Ready, Announced, CarriedOut, CallsMade, Heard, LeakHeap.After, CurrentRegs, Pinned, HeapBy, ContRuns;
      StopBetween(t, d, h, user);
      var e := Announced(t, d, h).value;
      CarriedOnceIff(p, t, d, h, x, envs[0].0, envs[0].1, user);
      ContEnds(p, d1, envs[0].0, envs[0].1);
      var (d2, out) := Cont(p, d1, envs[0].0, envs[0].1);
      CallsUnfold(p, t, d, h, status, envs);
      HeapByOne(h, e);
      var es := CallsMade(p, t, d, h, status, envs);
      assert es[0] == e && es[1..] == CallsAfter(p, t, d, LeakHeap.After(h, e), envs);
      TrackStep(t, h, e);
      if out.Done? {
        SoloCarried(p, t1, d2, LeakHeap.After(h, e), out.status, envs[1..], x, user);
      }
    }
  }

  /** For one thread that leaves every stop in time, over any hidden run the tracker's
      tables are those of the heap made by the calls and returns the program executed
      meanwhile, each counted once. */
  lemma OneThreadCalls(p: Platform, t: Tracker, d: Dbg, h: Heap, status: Status,
                       envs: seq<(Env, Env)>, x: Tid, user: set<Word>)
    requires Decodable(p.isa) && Tracks(t, h) && SoloRun(p, t, d, status, envs, x)
    requires status.Stopped? ==> d.alive
    requires d.alive ==> Consistent(d) && LeakSession.Booked(t, d.bps.Keys, user)
    requires Plausible(h, CallsMade(p, t, d, h, status, envs))
    ensures var es, t1 := CallsMade(p, t, d, h, status, envs), AutoCont(p, t, d, status, envs).0;
      t1 == TrackAll(t, h, es) && Tracks(t1, HeapAfter(h, es))
  {
    SoloCarried(p, t, d, h, status, envs, x, user);
    CallsAreStops(p, t, d, h, status, envs, user);
    hide *;
  }

  // ---------- calls missed

  /** All along the run there is the one thread. */
  ghost predicate AloneRun(p: Platform, t: Tracker, d: Dbg, status: Status, envs: seq<(Env, Env)>, x: Tid)
    decreases |envs|
  {
    status.Stopped? && OnStop(t, d).2 == Some(true) && envs != [] ==>
      var (t1, d1, _) := OnStop(t, d);
      var (d2, out) := Cont(p, d1, envs[0].0, envs[0].1);
      OneThread(p, d1, x, envs[0].0, envs[0].1) && (out.Done? ==> AloneRun(p, t1, d2, out.status, envs[1..], x))
  }

  /** It leaves each entry point at which a call is counted in time. */
  predicate LeavesEach(p: Platform, t: Tracker, d: Dbg, status: Status, envs: seq<(Env, Env)>, x: Tid)
    decreases |envs|
  {
    status.Stopped? && OnStop(t, d).2 == Some(true) && envs != [] ==>
      var (t1, d1, _) := OnStop(t, d);
      var (d2, out) := Cont(p, d1, envs[0].0, envs[0].1);
      && (CallNoted(t, d) ==> LeavesStop(p, d1, x, envs[0].0, envs[0].1))
      && (out.Done? ==> LeavesEach(p, t1, d2, out.status, envs[1..], x))
  }

  lemma StopOnceIff(p: Platform, t: Tracker, d: Dbg, x: Tid, e1: Env, e2: Env, user: set<Word>)
    requires Decodable(p.isa) && Consistent(d) && LeakSession.Booked(t, d.bps.Keys, user)
    requires LeakSession.SiteIsFree(t, d) && CallNoted(t, d) && OneThread(p, OnStop(t, d).1, x, e1, e2)
    requires TurnsAtStop(p, t, d, e1, e2) > 0
    ensures TurnsAtStop(p, t, d, e1, e2) == 1 <==> LeavesStop(p, OnStop(t, d).1, x, e1, e2)
  {
    var (t1, d1, _) := OnStop(t, d);
    LeakSession.HandlingIsInvisible(t, d, user);
    HandlingKeeps(t, d);
    var r := CurrentRegs(d).value;
    assert CurrentPc(d) == r.pc;
    EntriesArmed(t, t1, d1.bps.Keys, user);
    EntryIff(t, r.pc);
    hide Decodable, OnStop, GoodCont, LeakSession.Booked, LeakSession.SiteIsFree, WhereIs, Alone;
    ExecutedOnceIff(p, d1, x, r.pc, e1, e2);
  }

  lemma ExecutedOnceIff(p: Platform, d: Dbg, x: Tid, pc: Word, e1: Env, e2: Env)
    requires Decodable(p.isa) && Consistent(d) && OneThread(p, d, x, e1, e2)
    requires CurrentRegs(d).Some? && CurrentPc(d) == pc && pc in d.bps
    requires TurnsAt(p.isa, View(d), Stage(p, d, e1, e2), pc) > 0
    ensures TurnsAt(p.isa, View(d), Stage(p, d, e1, e2), pc) == 1 <==> LeavesStop(p, d, x, e1, e2)
  {
    StageAlone(p, d, x, e1, e2);
    SelectedRuns(d, d.threads[d.current], CurrentRegs(d).value);
    OnlyOne(d, x);
    assert d.at.Some? ==> d.at.value == pc;
    if d.at.Some? {
      hide Decodable, Consistent, View, GoodCont, Stage, TurnsAt, Leaves, SteppingAt, StintLen, CurrentRegs, CurrentPc;
      LeavesIff(p.isa, View(d), x, SteppingAt(p, d).bps.Keys, |e1.sched|, pc);
    } else {
      hide View, Executed, TurnsAt, StintLen, CurrentRegs, CurrentPc;
      StintClears(p.isa, d, e2);
      ClearsNone(p.isa, View(d), Executed(p.isa, d, e2), d.bps.Keys, pc);
    }
  }

  lemma {:induction false} OnceEachIff(p: Platform, t: Tracker, d: Dbg, status: Status, envs: seq<(Env, Env)>,
                                       x: Tid, user: set<Word>)
    requires Decodable(p.isa) && GoodHidden(p, t, d, status, envs) && AloneRun(p, t, d, status, envs, x)
    requires NoneRepeats(p, t, d, status, envs) && (status.Stopped? ==> d.alive)
    requires d.alive ==> Consistent(d) && LeakSession.Booked(t, d.bps.Keys, user)
    ensures OnceEach(p, t, d, status, envs) <==> LeavesEach(p, t, d, status, envs, x)
    decreases |envs|
  {
    if status.Stopped? && OnStop(t, d).2 == Some(true) && envs != [] {
      var (t1, d1, _) := OnStop(t, d);
      var (d2, out) := Cont(p, d1, envs[0].0, envs[0].1);
      hide Decodable, Consistent, View, OnStop, Cont, GoodCont, LeakSession.Booked, LeakSession.SiteIsFree, Alone;
      hide TurnsAtStop, LeavesStop, CallNoted, ContRuns, ContActs, Replay;
      LeakSession.HandlingIsInvisible(t, d, user);
      ContEnds(p, d1, envs[0].0, envs[0].1);
      if CallNoted(t, d) {
        StopOnceIff(p, t, d, x, envs[0].0, envs[0].1, user);
      }
      if out.Done? {
        OnceEachIff(p, t1, d2, out.status, envs[1..], x, user);
      }
    }
  }

  /** For one thread, over a run in which no stop is repeated: the tracker counts all the
      calls the program makes if and only if the thread leaves each entry point in time. */
  lemma MissesNoneIff(p: Platform, t: Tracker, d: Dbg, h: Heap, status: Status, envs: seq<(Env, Env)>,
                      x: Tid, user: set<Word>)
    requires Decodable(p.isa) && GoodHidden(p, t, d, status, envs) && AloneRun(p, t, d, status, envs, x)
    requires NoneRepeats(p, t, d, status, envs) && (status.Stopped? ==> d.alive)
    requires d.alive ==> Consistent(d) && LeakSession.Booked(t, d.bps.Keys, user)
    ensures CallsNoted(p, t, d, status, envs) <= CallsIn(CallsMade(p, t, d, h, status, envs))
    ensures CallsNoted(p, t, d, status, envs) == CallsIn(CallsMade(p, t, d, h, status, envs))
       <==> LeavesEach(p, t, d, status, envs, x)
  {
    NoneMissedIff(p, t, d, h, status, envs, user);
    OnceEachIff(p, t, d, status, envs, x, user);
    hide *;
  }
}
