/** One resume up to the next stop, with the PC-only breakpoint test that follows it. */
module Stops {
  import opened Words
  import opened Machine
  import opened Overlay
  import opened Engine
  import opened Transparency

  function Raw(isa: Isa, d: Dbg, env: Env): State {
    Run(isa, Settle(d.target), env.sched)
  }

  /** The instructions of the program executed by this resume. */
  function Executed(isa: Isa, d: Dbg, env: Env): seq<Tid> {
    Effective(isa, Settle(d.target), Saved(d.bps), env.sched)
  }

  function Stint(isa: Isa, d: Dbg, env: Env): Dbg {
    Handle(Resume(isa, d, env))
  }

  /** What the PC test takes for granted: at a SIGTRAP stop no thread that did not trap
      stands one past an armed byte; at any other stop no thread waits at a patch. */
  ghost predicate PcTellsTruth(raw: State, bps: set<Word>, signal: nat) {
    forall t :: t in raw.threads && Dec(raw.threads[t].pc) in bps ==>
      (t in raw.trapped <==> signal == SIGTRAP)
  }

  lemma SettledIsView(d: Dbg)
    requires TableOk(d)
    ensures TrueState(Settle(d.target), Saved(d.bps)) == View(d)
  {
    assert TrueThreads(Settle(d.target), Saved(d.bps)) == d.target.threads;
  }

  /** What a stop shows, thread by thread. */
  lemma ShownRegs(isa: Isa, d: Dbg, env: Env, t: Tid)
    requires TableOk(d) && env.event.StopEvent?
    requires ListsExactly(env.listing, Raw(isa, d, env).threads)
    requires t in Raw(isa, d, env).threads
    ensures t in Stint(isa, d, env).target.threads
    ensures Stint(isa, d, env).target.threads[t] ==
      var r := Raw(isa, d, env).threads[t];
      if env.event.signal == SIGTRAP && Dec(r.pc) in d.bps then r.(pc := Dec(r.pc)) else r
  {
  }

  /** The fields a resume leaves alone, whatever the target does. */
  lemma StintShape(isa: Isa, d: Dbg, env: Env)
    requires d.alive
    ensures var d' := Stint(isa, d, env);
      && d'.bps == d.bps
      && d'.target.mem == Raw(isa, d, env).mem && d'.target.trapped == Raw(isa, d, env).trapped
      && d'.target.threads.Keys == Raw(isa, d, env).threads.Keys
      && d'.last.Some?
      && (env.event.StopEvent? <==> d'.alive)
      && (env.event.StopEvent? <==> d'.last.value.Stopped?)
      && (env.event.StopEvent? ==> d'.threads == env.listing)
      && (!env.event.StopEvent? ==> d'.at == d.at)
  {
  }

  lemma PcMoves(a: Word)
    ensures Dec(a) != a
  {}

  /** One thread is shown where the unpatched program has it exactly when the PC test
      tells the truth about it. */
  lemma ThreadShownIff(isa: Isa, d: Dbg, env: Env, t: Tid)
    requires TableOk(d) && env.event.StopEvent?
    requires ListsExactly(env.listing, Raw(isa, d, env).threads)
    requires t in Raw(isa, d, env).threads && t in Stint(isa, d, env).target.threads
    ensures Stint(isa, d, env).target.threads[t] == TrueThreads(Raw(isa, d, env), Saved(d.bps))[t] <==>
      (Dec(Raw(isa, d, env).threads[t].pc) in d.bps ==>
        (t in Raw(isa, d, env).trapped <==> env.event.signal == SIGTRAP))
  {
    ShownRegs(isa, d, env, t);
    SavedIsTable(d);
    PcMoves(Raw(isa, d, env).threads[t].pc);
    hide Stint, Raw, ListsExactly;
  }

  /** The stop shows every thread where the unpatched program has it exactly when the
      PC test tells the truth about every thread that stands one past a breakpoint. */
  lemma StopIsExactIff(isa: Isa, d: Dbg, env: Env)
    requires d.alive && TableOk(d) && env.event.StopEvent?
    requires ListsExactly(env.listing, Raw(isa, d, env).threads)
    ensures Stint(isa, d, env).target.threads == TrueThreads(Raw(isa, d, env), Saved(d.bps))
       <==> PcTellsTruth(Raw(isa, d, env), d.bps.Keys, env.event.signal)
  {
    StintShape(isa, d, env);
    forall t | t in Raw(isa, d, env).threads
      ensures Stint(isa, d, env).target.threads[t] == TrueThreads(Raw(isa, d, env), Saved(d.bps))[t] <==>
        (Dec(Raw(isa, d, env).threads[t].pc) in d.bps ==>
          (t in Raw(isa, d, env).trapped <==> env.event.signal == SIGTRAP))
    {
      ThreadShownIff(isa, d, env, t);
    }
    hide Stint, Raw, ListsExactly;
  }

  // ---------- the invariant across a stop

  /** Thread `t` stands in front of a patch, trapped there or not. */
  ghost predicate InFront(s: State, saved: Memory, t: Tid) {
    && t in s.threads && TrueRegs(s.threads[t], t in s.trapped, saved).pc in saved
    && (t in s.trapped ==> Dec(s.threads[t].pc) in saved)
  }

  lemma InFrontStep(isa: Isa, s: State, saved: Memory, t: Tid, x: Tid)
    requires WellFormed(s) && Armed(s.mem, saved) && InFront(s, saved, t)
    ensures var s' := Step(isa, s, x);
      InFront(s', saved, t)
      && TrueRegs(s'.threads[t], t in s'.trapped, saved) == TrueRegs(s.threads[t], t in s.trapped, saved)
  {
    DecInc(s.threads[t].pc);
    hide EffectAt;
  }

  /** A thread in front of a patch stays there: it can only run into the patch. */
  lemma {:induction false} ParkedStays(isa: Isa, s: State, saved: Memory, t: Tid, sched: seq<Tid>)
    requires Decodable(isa) && WellFormed(s) && Armed(s.mem, saved)
    requires CleanRun(isa, TrueState(s, saved), saved.Keys, Effective(isa, s, saved, sched))
    requires InFront(s, saved, t)
    ensures var s' := Run(isa, s, sched);
      InFront(s', saved, t)
      && TrueRegs(s'.threads[t], t in s'.trapped, saved) == TrueRegs(s.threads[t], t in s.trapped, saved)
    decreases |sched|
  {
    hide Decodable, Armed, Step, TrueState, Moves, TrueRegs, Clean;
    if sched != [] {
      var x, s' := sched[0], Step(isa, s, sched[0]);
      StepKeepsShape(isa, s, x);
      InFrontStep(isa, s, saved, t, x);
      var rest := Effective(isa, s', saved, sched[1..]);
      if Moves(s, saved, x) {
        assert Effective(isa, s, saved, sched) == [x] + rest;
        assert ([x] + rest)[0] == x && ([x] + rest)[1..] == rest;
        MoveIsTrue(isa, s, saved, x);
      } else {
        assert Effective(isa, s, saved, sched) == rest;
        TrapIsInvisible(isa, s, saved, x);
      }
      ParkedStays(isa, s', saved, t, sched[1..]);
    }
  }

  /** The conditions on one resume under which the debugger is transparent: the executed
      instructions keep away from patched bytes, the thread list read after the stop is
      complete, and the PC test tells the truth. */
  ghost predicate GoodStint(isa: Isa, d: Dbg, env: Env) {
    && CleanRun(isa, View(d), d.bps.Keys, Executed(isa, d, env))
    && (env.event.StopEvent? ==>
        && ListsExactly(env.listing, Raw(isa, d, env).threads)
        && PcTellsTruth(Raw(isa, d, env), d.bps.Keys, env.event.signal))
  }

  /** No thread of the program stands one past an address in `bps`, nor, at a stop by
      another signal than SIGTRAP, at one. */
  ghost predicate NobodyNear(u: State, bps: set<Word>, signal: nat) {
    forall t :: t in u.threads ==>
      && Dec(u.threads[t].pc) !in bps
      && (signal != SIGTRAP ==> u.threads[t].pc !in bps)
  }

  /** The kernel's view and the program's name the same threads; the PC test is right where
      the program keeps away from the addresses after the breakpoints. */
  lemma TruthFromProgram(isa: Isa, d: Dbg, env: Env)
    requires Decodable(isa) && TableOk(d) && CleanRun(isa, View(d), d.bps.Keys, Executed(isa, d, env))
    requires env.event.StopEvent?
    ensures Raw(isa, d, env).threads.Keys == Run(isa, View(d), Executed(isa, d, env)).threads.Keys
    ensures NobodyNear(Run(isa, View(d), Executed(isa, d, env)), d.bps.Keys, env.event.signal) ==>
      PcTellsTruth(Raw(isa, d, env), d.bps.Keys, env.event.signal)
  {
    SavedIsTable(d);
    SettledIsView(d);
    RunSimulates(isa, Settle(d.target), Saved(d.bps), env.sched);
    var raw, u := Raw(isa, d, env), Run(isa, View(d), Executed(isa, d, env));
    hide Run, Executed, Raw;
    assert u == TrueState(raw, Saved(d.bps));
  }

  /** No breakpoint stands one past another. */
  ghost predicate Apart(bps: set<Word>) {
    forall a :: a in bps ==> Dec(a) !in bps
  }

  lemma ThreadTruthIff(raw: State, saved: Memory, t: Tid)
    requires Apart(saved.Keys) && t in raw.threads
    ensures (Dec(raw.threads[t].pc) in saved ==> t in raw.trapped)
       <==> Dec(TrueRegs(raw.threads[t], t in raw.trapped, saved).pc) !in saved
  {
    var a := Dec(raw.threads[t].pc);
    assert a in saved.Keys ==> Dec(a) !in saved.Keys;
  }

  /** At a SIGTRAP stop with no breakpoint one past another, the stop shows every thread
      where the unpatched program has it exactly when no thread of the program has stopped
      one past a breakpoint. */
  lemma StopIsTrueIff(isa: Isa, d: Dbg, env: Env)
    requires Decodable(isa) && d.alive && TableOk(d) && CleanRun(isa, View(d), d.bps.Keys, Executed(isa, d, env))
    requires env.event.StopEvent? && env.event.signal == SIGTRAP && Apart(d.bps.Keys)
    requires ListsExactly(env.listing, Run(isa, View(d), Executed(isa, d, env)).threads)
    ensures var u := Run(isa, View(d), Executed(isa, d, env));
      Stint(isa, d, env).target.threads == u.threads <==> NobodyNear(u, d.bps.Keys, SIGTRAP)
  {
    SavedIsTable(d);
    SettledIsView(d);
    RunSimulates(isa, Settle(d.target), Saved(d.bps), env.sched);
    var raw, u := Raw(isa, d, env), Run(isa, View(d), Executed(isa, d, env));
    assert u == TrueState(raw, Saved(d.bps));
    hide Run, Executed, Raw, Stint, Decodable, CleanRun, TrueRegs, View;
    forall t | t in raw.threads
      ensures (Dec(raw.threads[t].pc) in d.bps ==> t in raw.trapped) <==> Dec(u.threads[t].pc) !in d.bps
    {
      ThreadTruthIff(raw, Saved(d.bps), t);
    }
    StopIsExactIff(isa, d, env);
  }

  lemma RawIsTrue(isa: Isa, d: Dbg, env: Env)
    requires Decodable(isa) && TableOk(d) && GoodStint(isa, d, env)
    ensures WellFormed(Raw(isa, d, env)) && Armed(Raw(isa, d, env).mem, Saved(d.bps))
    ensures TrueState(Raw(isa, d, env), Saved(d.bps)) == Run(isa, View(d), Executed(isa, d, env))
  {
    SavedIsTable(d);
    SettledIsView(d);
    RunSimulates(isa, Settle(d.target), Saved(d.bps), env.sched);
  }

  /** Stopping keeps the table and shows the unpatched run of the executed instructions. */
  lemma StintTransparent(isa: Isa, d: Dbg, env: Env)
    requires Decodable(isa) && d.alive && TableOk(d) && GoodStint(isa, d, env)
    requires env.event.StopEvent?
    ensures View(Stint(isa, d, env)) == Settle(Run(isa, View(d), Executed(isa, d, env)))
    ensures TableOk(Stint(isa, d, env)) && WellFormed(Stint(isa, d, env).target)
    ensures ListsExactly(Stint(isa, d, env).threads, Stint(isa, d, env).target.threads)
  {
    RawIsTrue(isa, d, env);
    StintShape(isa, d, env);
    StopIsExactIff(isa, d, env);
    SavedIsTable(d);
  }

  lemma RefreshFinds(d: Dbg, listing: seq<Tid>)
    requires d.current < |d.threads| && d.threads[d.current] in listing
    ensures var d' := Refresh(d, listing);
      d'.current < |d'.threads| && d'.threads[d'.current] == d.threads[d.current]
  {
  }

  /** The selected thread in front of its breakpoint, across a resume. */
  lemma SelectedStays(isa: Isa, d: Dbg, env: Env)
    requires Decodable(isa) && TableOk(d) && AtIsCurrent(d) && d.at.Some? && GoodStint(isa, d, env)
    ensures var t, raw := d.threads[d.current], Raw(isa, d, env);
      && t in raw.threads && (t in raw.trapped ==> Dec(raw.threads[t].pc) in d.bps)
      && TrueRegs(raw.threads[t], t in raw.trapped, Saved(d.bps)).pc == d.at.value
  {
    SavedIsTable(d);
    SettledIsView(d);
    var t := d.threads[d.current];
    assert InFront(Settle(d.target), Saved(d.bps), t);
    hide Run, CleanRun;
    ParkedStays(isa, Settle(d.target), Saved(d.bps), t, env.sched);
  }

  lemma KeptThread(isa: Isa, d: Dbg, env: Env)
    requires d.alive && d.current < |d.threads| && d.threads[d.current] in env.listing && env.event.StopEvent?
    ensures var d1 := Resume(isa, d, env);
      d1.current < |env.listing| && d1.threads == env.listing && env.listing[d1.current] == d.threads[d.current]
      && d1.at == d.at
  {
    RefreshFinds(d.(target := Raw(isa, d, env)), env.listing);
    hide Run;
  }

  /** Nobody hit a breakpoint: `at` still names where the selected thread stands. */
  lemma AtStays(isa: Isa, d: Dbg, env: Env)
    requires Decodable(isa) && d.alive && TableOk(d) && AtIsCurrent(d) && d.at.Some? && GoodStint(isa, d, env)
    requires env.event.StopEvent?
    requires var d1 := Resume(isa, d, env);
      d1.last.value.signal == SIGTRAP ==> FirstHit(d1, d1.threads) == |d1.threads|
    ensures AtIsCurrent(Stint(isa, d, env))
  {
    var t, d1 := d.threads[d.current], Resume(isa, d, env);
    assert d.at.value in d.bps;
    SelectedStays(isa, d, env);
    SavedIsTable(d);
    KeptThread(isa, d, env);
    NobodyHit(d1);
    StintShape(isa, d, env);
    if env.event.signal == SIGTRAP {
      assert !LooksTrapped(d1, d1.threads[d1.current]);
    }
    hide Run, FirstHit, Rewound, Handle, TableOk, CleanRun, CurrentRegs, CurrentPc, AtIsCurrent, PcTellsTruth;
    ShownRegs(isa, d, env, t);
    StandsAt(Stint(isa, d, env), t);
  }

  lemma StandsAt(d: Dbg, t: Tid)
    requires d.alive && d.current < |d.threads| && d.threads[d.current] == t && t in d.target.threads
    requires d.at.Some? && d.at.value in d.bps && d.target.threads[t].pc == d.at.value
    ensures AtIsCurrent(d)
  {
  }

  lemma NobodyHit(d1: Dbg)
    requires d1.last.Some? && d1.last.value.Stopped?
    requires d1.last.value.signal == SIGTRAP ==> FirstHit(d1, d1.threads) == |d1.threads|
    ensures var d' := Handle(d1);
      d'.at == d1.at && d'.current == d1.current && d'.threads == d1.threads && d'.alive == d1.alive
  {
    hide FirstHit, Rewound;
  }

  /** A thread that was selected at a breakpoint is still selected there after a stop at
      which nobody hit a breakpoint. */
  lemma AtSurvives(isa: Isa, d: Dbg, env: Env)
    requires Decodable(isa) && d.alive && TableOk(d) && AtIsCurrent(d) && GoodStint(isa, d, env)
    requires env.event.StopEvent?
    ensures AtIsCurrent(Stint(isa, d, env))
  {
    var d1 := Resume(isa, d, env);
    if d1.last.value.signal == SIGTRAP && FirstHit(d1, d1.threads) < |d1.threads| {
      HitIsCurrent(d1);
    } else if d.at.Some? {
      AtStays(isa, d, env);
    } else {
      assert Stint(isa, d, env).at.None?;
    }
  }

  /** A breakpoint stop selects a thread that stands at the breakpoint. */
  lemma HitIsCurrent(d1: Dbg)
    requires d1.alive && d1.last.Some? && d1.last.value.Stopped? && d1.last.value.signal == SIGTRAP
    requires FirstHit(d1, d1.threads) < |d1.threads|
    ensures Handle(d1).at.Some? && IsArmed(d1, Handle(d1).at.value)
    ensures AtIsCurrent(Handle(d1))
    ensures Handle(d1).last == Some(Stopped(SIGTRAP, Handle(d1).at.value))
  {
  }

  /** The invariant survives every resume that ends in a stop. */
  lemma StintConsistent(isa: Isa, d: Dbg, env: Env)
    requires Decodable(isa) && d.alive && TableOk(d) && AtIsCurrent(d) && GoodStint(isa, d, env)
    requires env.event.StopEvent?
    ensures Consistent(Stint(isa, d, env))
  {
    StintShape(isa, d, env);
    StintTransparent(isa, d, env);
    AtSurvives(isa, d, env);
  }
}
