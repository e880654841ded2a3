/** What the commands report: which thread is selected at a stop, the recorded breakpoint,
    the signal and PC of the status, and the outcome. */
module Reports {
  import opened Words
  import opened Machine
  import opened Engine
  import opened Transparency
  import opened Stops
  import opened Session
  import opened Solo
  import Commands
  import Fair

  // ---------- one stop

  /** The kernel shows thread `t` one past an armed byte of the session. */
  predicate Past(d: Dbg, raw: State, t: Tid) {
    t in raw.threads && Dec(raw.threads[t].pc) in d.bps && d.bps[Dec(raw.threads[t].pc)].enabled
  }

  /** Thread `i` of the listing is the first such one. */
  ghost predicate FirstPast(d: Dbg, raw: State, listing: seq<Tid>, i: nat) {
    && i < |listing| && Past(d, raw, listing[i])
    && forall j: nat :: j < i ==> !Past(d, raw, listing[j])
  }

  ghost predicate AnyPast(d: Dbg, raw: State, listing: seq<Tid>) {
    exists i: nat :: i < |listing| && Past(d, raw, listing[i])
  }

  /** The thread selected before, if it is still listed, and the first one if not. */
  ghost predicate KeepsSelected(d: Dbg, listing: seq<Tid>, current: nat) {
    if d.current < |d.threads| && d.threads[d.current] in listing
    then current < |listing| && listing[current] == d.threads[d.current]
    else current == 0
  }

  predicate HasSelected(d: Dbg) {
    d.current < |d.threads| && d.threads[d.current] in d.target.threads
  }

  function SelectedPc(d: Dbg): Word {
    if HasSelected(d) then d.target.threads[d.threads[d.current]].pc else 0
  }

  /** What is selected and reported at a stop: at a SIGTRAP the first thread that the kernel
      shows one past an armed byte; with no such thread, or at any other signal, the
      selection stays. The PC reported is the one the selected thread is shown at. */
  ghost predicate Selects(d: Dbg, raw: State, env: Env, d': Dbg)
    requires env.event.StopEvent?
  {
    && d'.threads == env.listing && d'.last == Some(Stopped(env.event.signal, SelectedPc(d')))
    && if env.event.signal == 5 && AnyPast(d, raw, env.listing) then FirstPast(d, raw, env.listing, d'.current)
       else KeepsSelected(d, env.listing, d'.current)
  }

  /** And what is recorded: the byte that thread stands one past, or what was before. */
  ghost predicate Says(d: Dbg, raw: State, env: Env, d': Dbg)
    requires env.event.StopEvent?
  {
    && Selects(d, raw, env, d')
    && d'.at == if env.event.signal == 5 && AnyPast(d, raw, env.listing)
                then Some(Dec(raw.threads[env.listing[d'.current]].pc)) else d.at
  }

  lemma FirstHitIs(d: Dbg, d1: Dbg)
    requires d1.bps == d.bps
    ensures FirstHit(d1, d1.threads) < |d1.threads| ==> FirstPast(d, d1.target, d1.threads, FirstHit(d1, d1.threads))
    ensures FirstHit(d1, d1.threads) == |d1.threads| <==> !AnyPast(d, d1.target, d1.threads)
  {
  }

  lemma RefreshKeeps(d: Dbg, listing: seq<Tid>)
    ensures KeepsSelected(d, listing, Refresh(d, listing).current) && Refresh(d, listing).threads == listing
  {
  }

  /** The PC reported is the one the selected thread is shown at. */
  lemma HandledPc(d1: Dbg)
    requires d1.alive && d1.last.Some? && d1.last.value.Stopped? && d1.last.value.pc == SelectedPc(d1)
    ensures var d' := Handle(d1);
      && d'.last == Some(Stopped(d1.last.value.signal, SelectedPc(d')))
      && (d1.last.value.signal != SIGTRAP || FirstHit(d1, d1.threads) == |d1.threads| ==>
            d'.at == d1.at && d'.current == d1.current)
  {
    if d1.last.value.signal == SIGTRAP && FirstHit(d1, d1.threads) == |d1.threads| {
      assert forall t :: t in d1.threads ==> !LooksTrapped(d1, t);
      assert Rewound(d1) == d1.target.threads;
    }
    hide FirstHit, LooksTrapped;
  }

  /** Every stop of a live target, whatever the threads and the schedule. */
  lemma StintSays(isa: Isa, d: Dbg, env: Env)
    requires d.alive && env.event.StopEvent?
    ensures Says(d, Raw(isa, d, env), env, Stint(isa, d, env))
  {
    var d0 := d.(target := Raw(isa, d, env));
    RefreshKeeps(d0, env.listing);
    var d1 := Resume(isa, d, env);
    hide Run;
    assert d1.target == Raw(isa, d, env) && d1.bps == d.bps && d1.at == d.at;
    assert d1.last == Some(Stopped(env.event.signal, SelectedPc(d1)));
    FirstHitIs(d, d1);
    HandledPc(d1);
    hide FirstHit, Rewound, Past;
  }

  // ---------- `cont` and `step`

  /** The last stop of `cont`, from the session its second resume starts with. */
  lemma ContSays(p: Platform, d: Dbg, e1: Env, e2: Env)
    requires Decodable(p.isa) && Consistent(d) && GoodCont(p, d, e1, e2) && Survives(d, e1, e2)
    ensures var d1 := SteppedOver(p, d, e1);
      var (d', out) := Cont(p, d, e1, e2);
      && Says(d1, Raw(p.isa, d1, e2), e2, d')
      && out == Done(Stopped(e2.event.signal, SelectedPc(d')))
  {
    hide Says, StepOver, Resume, Handle, Raw, View, GoodStint, GoodStep, Replay, Disarmed, Decodable;
    if d.at.Some? {
      TakeAt(d);
      StepOverTransparent(p, d.(at := None), d.at.value, e1);
    }
    var d1 := SteppedOver(p, d, e1);
    assert d1.alive;
    hide Consistent;
    StintSays(p.isa, d1, e2);
    SaysLast(d1, Raw(p.isa, d1, e2), e2, Stint(p.isa, d1, e2));
  }

  lemma SaysLast(d: Dbg, raw: State, env: Env, d': Dbg)
    requires env.event.StopEvent? && Says(d, raw, env, d')
    ensures d'.last == Some(Stopped(env.event.signal, SelectedPc(d')))
  {
  }

  /** Arming and disarming moves no thread. */
  lemma SameSelection(d: Dbg, d1: Dbg)
    requires SameFrame(d, d1)
    ensures SelectedPc(d1) == SelectedPc(d) && HasSelected(d1) == HasSelected(d) && d1.last == d.last
  {
  }

  lemma SelectsSame(b: Dbg, raw: State, env: Env, d: Dbg, d': Dbg)
    requires env.event.StopEvent? && Selects(b, raw, env, d) && SameFrame(d, d')
    ensures Selects(b, raw, env, d')
  {
    SameSelection(d, d');
    hide FirstPast, AnyPast, SelectedPc;
  }

  lemma StepCurrentSays(p: Platform, d: Dbg, env: Env)
    requires Decodable(p.isa) && Consistent(d) && GoodStep(p, d, env) && env.event.StopEvent?
    ensures var b := Prepared(p, d);
      Selects(b, Raw(p.isa, b, env), env, StepCurrent(p, d, env).0)
    ensures StepCurrent(p, d, env).1 == Done(StepCurrent(p, d, env).0.last.value)
  {
    var candidates := Candidates(p, d, CurrentPc(d));
    var (b, planted) := Plant(d, candidates);
    PlantInvisible(d, candidates);
    PlantConsistent(d, candidates);
    StintConsistent(p.isa, b, env);
    var d2 := Stint(p.isa, b, env);
    UnplantInvisible(d2, planted);
    hide Selects, Plant, Unplant, Candidates, Raw, Resume, Handle, Consistent, View, GoodStint, TableOk;
    StintSays(p.isa, b, env);
    SelectsSame(b, Raw(p.isa, b, env), env, d2, Unplant(d2, planted));
  }

  lemma StepOverSays(p: Platform, d: Dbg, env: Env)
    requires Decodable(p.isa) && Consistent(d) && d.at.Some? && GoodStepI(p, d, env) && env.event.StopEvent?
    ensures var b := Fair.StepBase(p, d);
      var (d', out) := StepOver(p, d.(at := None), d.at.value, env);
      Selects(b, Raw(p.isa, b, env), env, d') && out.Done? && d'.last == Some(out.status)
  {
    TakeAt(d);
    var d0 := Disarmed(d.(at := None), d.at.value);
    DisarmedInvisible(d.(at := None), d.at.value);
    StepOverUnfolds(p, d.(at := None), d.at.value, env);
    hide Decodable, Consistent, View, GoodStep, StepOver, StepCurrent, Disarmed, Prepared, Selects, Raw, SameFrame;
    StepCurrentSays(p, d0, env);
    StepOverTransparent(p, d.(at := None), d.at.value, env);
    var d2 := StepCurrent(p, d0, env).0;
    ArmingKeeps(d2, d.at.value);
    SelectsSame(Prepared(p, d0), Raw(p.isa, Prepared(p, d0), env), env, d2, SetBp(d2, d.at.value).0);
  }

  lemma ArmingKeeps(d: Dbg, a: Word)
    ensures SameFrame(d, SetBp(d, a).0)
  {
  }

  /** Every stop of `step`: selection and report as at any stop, from the session with the
      temporary breakpoints; recorded is exactly a breakpoint the selected thread is at. */
  lemma StepSays(p: Platform, d: Dbg, env: Env)
    requires Decodable(p.isa) && Consistent(d) && GoodStepI(p, d, env) && env.event.StopEvent?
    ensures var b := Fair.StepBase(p, d);
      var (d', out) := StepI(p, d, env);
      && Selects(b, Raw(p.isa, b, env), env, d')
      && out == Done(Stopped(env.event.signal, SelectedPc(d')))
      && d'.at == if HasSelected(d') && SelectedPc(d') in d.bps then Some(SelectedPc(d')) else None
  {
    StepITransparent(p, d, env);
    hide Decodable, View, GoodStep, StepOver, StepCurrent, Disarmed, Prepared, Selects, Raw;
    var d1 := if d.at.Some? then StepOver(p, d.(at := None), d.at.value, env).0 else StepCurrent(p, d, env).0;
    if d.at.Some? {
      StepOverSays(p, d, env);
    } else {
      StepCurrentSays(p, d, env);
    }
    LandingSays(d1);
    SelectsSame(Fair.StepBase(p, d), Raw(p.isa, Fair.StepBase(p, d), env), env, d1, NoteLanding(d1));
    SelectsLast(Fair.StepBase(p, d), Raw(p.isa, Fair.StepBase(p, d), env), env, NoteLanding(d1));
    RecordedIs(d1, StepI(p, d, env).0);
  }

  lemma SelectsLast(d: Dbg, raw: State, env: Env, d': Dbg)
    requires env.event.StopEvent? && Selects(d, raw, env, d')
    ensures d'.last == Some(Stopped(env.event.signal, SelectedPc(d')))
  {
  }

  lemma LandingSays(d: Dbg)
    ensures SameFrame(d, NoteLanding(d))
  {
  }

  lemma RecordedIs(d1: Dbg, d': Dbg)
    requires d' == NoteLanding(d1) && Consistent(d')
    ensures d'.at == if HasSelected(d') && SelectedPc(d') in d'.bps then Some(SelectedPc(d')) else None
  {
  }

  function EndOf(event: Event): Status
    requires !event.StopEvent?
  {
    if event.ExitEvent? then Exited(event.code) else Signaled(event.signal)
  }

  /** A target that ends in a plain step: its exit code or signal is what `step` returns;
      in a step-over it is an error. */
  lemma StepReportsEnd(p: Platform, d: Dbg, env: Env)
    requires Decodable(p.isa) && Consistent(d) && GoodStepI(p, d, env) && !env.event.StopEvent?
    ensures StepI(p, d, env).1 == if d.at.Some? then Failed else Done(EndOf(env.event))
  {
    if d.at.Some? {
      TakeAt(d);
      StepOverTransparent(p, d.(at := None), d.at.value, env);
    } else {
      var (b, planted) := Plant(d, Candidates(p, d, CurrentPc(d)));
      PlantInvisible(d, Candidates(p, d, CurrentPc(d)));
      UnplantDead(Stint(p.isa, b, env), planted);
      EndStatus(p, b, env);
    }
    hide Consistent, View, GoodStep, StepOver, Plant, Unplant, Candidates, Disarmed, Run, Replay, Decodable;
  }

  // ---------- `finish`

  lemma WithdrawReports(d: Dbg, ret: Word, out: Outcome)
    requires out.Done? && d.last == Some(out.status) && (out.status.Stopped? <==> d.alive)
    requires d.alive ==> Consistent(d)
    ensures var (d', out') := Withdraw(d, ret, out);
      && out' == out && d'.last == d.last && d'.alive == d.alive
      && d'.threads == d.threads && d'.current == d.current && d'.target.threads == d.target.threads
      && d'.at == (if d.at == Some(ret) && d.alive then None else d.at)
  {
    if d.alive {
      RemoveBpInvisible(d, ret);
    }
  }

  /** An error exactly when there is no return address that is mapped, or the target ends in
      the step-over; otherwise the last status, a stop exactly if the target lives, at the
      PC of the selected thread, or else the end of the target. */
  ghost predicate EndsReported(d: Dbg, mapped: bool, e1: Env, e2: Env, d': Dbg, out: Outcome) {
    && out != Panicked
    && (out == Failed <==> !mapped || (d.at.Some? && !e1.event.StopEvent?))
    && (out.Done? ==>
          && d'.last == Some(out.status) && (out.status.Stopped? <==> d'.alive)
          && (d'.alive <==> e2.event.StopEvent?)
          && out.status == if e2.event.StopEvent? then Stopped(e2.event.signal, SelectedPc(d')) else EndOf(e2.event))
  }

  /** What `cont` returns: an error exactly when the target ends in the step-over. */
  lemma ContReports(p: Platform, d: Dbg, e1: Env, e2: Env)
    requires Decodable(p.isa) && Consistent(d) && GoodCont(p, d, e1, e2)
    ensures var (d', out) := Cont(p, d, e1, e2); EndsReported(d, true, e1, e2, d', out)
  {
    hide Decodable, Consistent, View, GoodCont, Cont, Replay, ContActs, Raw, Says, SelectedPc;
    ContTransparent(p, d, e1, e2);
    ContLast(p, d, e1, e2);
    if Survives(d, e1, e2) {
      ContSays(p, d, e1, e2);
    } else if d.at.None? || e1.event.StopEvent? {
      ContReportsEnd(p, d, e1, e2);
    }
  }

  lemma WithdrawReported(d: Dbg, b: Dbg, ret: Word, e1: Env, e2: Env, d2: Dbg, out: Outcome)
    requires EndsReported(b, true, e1, e2, d2, out) && b.at == d.at && (d2.alive ==> Consistent(d2))
    ensures EndsReported(d, true, e1, e2, Withdraw(d2, ret, out).0, Withdraw(d2, ret, out).1)
  {
    hide Consistent, Withdraw;
    if out.Done? {
      WithdrawReports(d2, ret, out);
    } else {
      FailedStays(d2, ret, out);
    }
  }

  /** What `finish` returns. */
  lemma RunToReports(p: Platform, d: Dbg, ret: Word, e1: Env, e2: Env)
    requires Decodable(p.isa) && Consistent(d) && GoodRunTo(p, d, ret, e1, e2)
    ensures var (d', out) := RunTo(p, d, ret, e1, e2);
      EndsReported(d, ret in d.target.mem, e1, e2, d', out)
  {
    RunToUnfolds(p, d, ret, e1, e2);
    if ret in d.target.mem {
      var b := FinishBase(d, ret);
      var (d2, out) := Cont(p, b, e1, e2);
      FinishBaseOk(d, ret);
      hide Decodable, Consistent, View, GoodCont, Cont, Withdraw, RunTo, Replay, ContActs, FinishBase, EndsReported;
      ContReports(p, b, e1, e2);
      ContTransparent(p, b, e1, e2);
      if ret in d.bps {
        SameReported(d, b, e1, e2, d2, out);
      } else {
        WithdrawReported(d, b, ret, e1, e2, d2, out);
      }
    }
  }

  lemma SameReported(d: Dbg, b: Dbg, e1: Env, e2: Env, d': Dbg, out: Outcome)
    requires EndsReported(b, true, e1, e2, d', out) && b.at == d.at
    ensures EndsReported(d, true, e1, e2, d', out)
  {
  }

  lemma FailedStays(d: Dbg, ret: Word, out: Outcome)
    requires !out.Done?
    ensures Withdraw(d, ret, out) == (d, out)
  {
  }

  /** Whatever `cont` reports is the last status of the session. */
  lemma ContLast(p: Platform, d: Dbg, e1: Env, e2: Env)
    ensures var (d', out) := Cont(p, d, e1, e2); out.Done? ==> d'.last == Some(out.status)
  {
    ContMainLast(p, SteppedOver(p, d, e1), e2);
    hide StepOver, ContMain;
  }

  lemma ContMainLast(p: Platform, d: Dbg, env: Env)
    ensures var (d', out) := ContMain(p, d, env); out.Done? ==> d'.last == Some(out.status)
  {
    hide Run, FirstHit, Rewound;
  }

  /** The same for `finish` itself. */
  lemma FinishReports(p: Platform, d: Dbg, e1: Env, e2: Env)
    requires Decodable(p.isa) && Consistent(d)
    requires ReturnAddress(d).Some? ==> GoodRunTo(p, d, ReturnAddress(d).value, e1, e2)
    ensures var (d', out) := Finish(p, d, e1, e2);
      var mapped := ReturnAddress(d).Some? && ReturnAddress(d).value in d.target.mem;
      EndsReported(d, mapped, e1, e2, d', out)
  {
    hide RunTo, ReturnAddress, Consistent, GoodCont, Decodable, Finish;
    Commands.FinishUnfolds(p, d, e1, e2);
    if ReturnAddress(d).Some? {
      RunToReports(p, d, ReturnAddress(d).value, e1, e2);
    }
  }

  // ---------- `finish` of a one-thread target

  /** The conditions under which `cont` is exact: at a breakpoint as in `Solo.ContExact`,
      elsewhere as in `Solo.ContMainExact`. */
  ghost predicate ExactCont(p: Platform, d: Dbg, t: Tid, e1: Env, e2: Env) {
    if d.at.Some? then
      && Steppable(p, d, t) && TrapEnv(e1, t) && |e1.sched| >= 2
      && RunsToStop(p.isa, After(p.isa, View(d), t, StepOverRuns(p, d)), d.bps.Keys, t, e2)
    else RunsToStop(p.isa, View(d), d.bps.Keys, t, e2)
  }

  /** The instructions of the step-over: one, or none where it stalls. */
  function StepOverRuns(p: Platform, d: Dbg): nat {
    if d.at.Some? && !Stalls(p, d) then 1 else 0
  }

  lemma ContStopsFirst(p: Platform, d: Dbg, t: Tid, e1: Env, e2: Env) returns (k: nat)
    requires Decodable(p.isa) && Consistent(d) && ExactCont(p, d, t, e1, e2)
    ensures k >= StepOverRuns(p, d)
    ensures var (d', out) := Cont(p, d, e1, e2);
      StopsFirst(p.isa, View(d), d.bps.Keys, t, StepOverRuns(p, d), k, d', out) && out.Done? && out.status.Stopped?
  {
    hide Decodable, Consistent, View, Steppable, Stalls, StopsFirst, StintLen, After, ContMain, StepOver, CleanRun;
    var m := StepOverRuns(p, d);
    if d.at.Some? {
      k := m + StintLen(p.isa, After(p.isa, View(d), t, m), t, d.bps.Keys, |e2.sched|);
      var (d1, out) := StepOver(p, d.(at := None), d.at.value, e1);
      StepOverHandsOn(p, d, t, e1, d1, out);
      ContGoesOn(p, d, e1, e2, d1, out);
      ContMainStopped(p, d1, e2);
      ContExact(p, d, t, e1, e2);
    } else {
      k := StintLen(p.isa, View(d), t, d.bps.Keys, |e2.sched|);
      ContMainStopped(p, d, e2);
      ContMainExact(p, d, t, e2);
    }
  }

  lemma ContMainStopped(p: Platform, d: Dbg, env: Env)
    requires Consistent(d) && env.event.StopEvent?
    ensures ContMain(p, d, env).1.Done? && ContMain(p, d, env).1.status.Stopped?
  {
    StintShape(p.isa, d, env);
    hide Resume, Handle;
  }

  /** The state after `k` instructions is shown: at a breakpoint or at the return address,
      and reported there, or past an `int3` of the program; no state from `lo` up to there
      is. Only the breakpoints `bps` are left. */
  ghost predicate FinishStops(isa: Isa, u0: State, bps: set<Word>, ret: Word, t: Tid, lo: nat, k: nat,
                              d': Dbg, out: Outcome) {
    var u := After(isa, u0, t, k);
    && lo <= k && (forall i :: lo <= i < k ==> !Halts(After(isa, u0, t, i), t, bps + {ret}))
    && Consistent(d') && View(d') == Settle(u) && d'.bps.Keys == bps && t in u.threads && out.Done?
    && if t in u.trapped then d'.at == None
       else
         && u.threads[t].pc in bps + {ret} && out == Done(Stopped(SIGTRAP, u.threads[t].pc))
         && d'.at == if u.threads[t].pc in bps then Some(u.threads[t].pc) else None
  }

  /** `finish` runs the program to the first state whose PC is a breakpoint or the return
      address (or that has run into an `int3` of the program), reports it there, and keeps
      only the breakpoints there were. */
  lemma FinishExact(p: Platform, d: Dbg, ret: Word, t: Tid, e1: Env, e2: Env) returns (k: nat)
    requires Decodable(p.isa) && Consistent(d) && ret in d.target.mem
    requires ExactCont(p, FinishBase(d, ret), t, e1, e2)
    ensures var (d', out) := RunTo(p, d, ret, e1, e2);
      FinishStops(p.isa, View(d), d.bps.Keys, ret, t, StepOverRuns(p, FinishBase(d, ret)), k, d', out)
  {
    var b := FinishBase(d, ret);
    FinishBaseOk(d, ret);
    RunToUnfolds(p, d, ret, e1, e2);
    hide *;
    k := ContStopsFirst(p, b, t, e1, e2);
    var (d2, out) := Cont(p, b, e1, e2);
    if ret in d.bps {
      KeysBack(d.bps, ret);
      StopsWithBoth(p.isa, View(d), d.bps.Keys, ret, t, StepOverRuns(p, b), k, d2, out);
    } else {
      StopsWithdrawn(p.isa, View(d), d.bps.Keys, ret, t, StepOverRuns(p, b), k, d2, out);
    }
  }

  lemma StopsWithBoth(isa: Isa, u0: State, bps: set<Word>, ret: Word, t: Tid, lo: nat, k: nat, d: Dbg, out: Outcome)
    requires StopsFirst(isa, u0, bps, t, lo, k, d, out) && bps + {ret} == bps && lo <= k
    ensures FinishStops(isa, u0, bps, ret, t, lo, k, d, out)
  {
    hide After, View, Consistent, Halts, Settle;
  }

  lemma StopsWithdrawn(isa: Isa, u0: State, bps: set<Word>, ret: Word, t: Tid, lo: nat, k: nat, d: Dbg, out: Outcome)
    requires StopsFirst(isa, u0, bps + {ret}, t, lo, k, d, out) && ret !in bps && lo <= k
    requires out.Done? && out.status.Stopped?
    ensures FinishStops(isa, u0, bps, ret, t, lo, k, Withdraw(d, ret, out).0, Withdraw(d, ret, out).1)
  {
    assert Consistent(d);
    WithdrawStays(d, ret, out);
    assert bps + {ret} - {ret} == bps;
    hide After, View, Consistent, Halts, Settle, Withdraw;
  }

  lemma WithdrawStays(d: Dbg, ret: Word, out: Outcome)
    requires Consistent(d) && out.Done? && out.status.Stopped?
    ensures var (d', out') := Withdraw(d, ret, out);
      && out' == out && Consistent(d') && View(d') == View(d) && d'.bps.Keys == d.bps.Keys - {ret}
      && d'.at == if d.at == Some(ret) then None else d.at
  {
    RemoveBpConsistent(d, ret);
    KeysLess(d.bps, ret);
    hide View;
  }
}
