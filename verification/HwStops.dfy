/** What the commands recognise and report on ARM64: the thread selected at a stop, the
    breakpoint recorded, and the signal and PC of the status. */
module HwStops {
  import opened Words
  import opened Machine
  import DebugRegs
  import Engine
  import opened HwSlots
  import opened HwAgreement
  import opened HwRuns

  // ---------- one stop

  /** Thread `i` of the listing stands at an address of `armed`. */
  predicate On(env: HwEnv, armed: set<Word>, i: nat) {
    i < |env.listing| && env.listing[i] in env.pcs && env.pcs[env.listing[i]] in armed
  }

  ghost predicate AnyOn(env: HwEnv, armed: set<Word>) {
    exists i: nat :: On(env, armed, i)
  }

  ghost predicate FirstOn(env: HwEnv, armed: set<Word>, i: nat) {
    On(env, armed, i) && forall j: nat :: j < i ==> !On(env, armed, j)
  }

  /** The thread selected before, if it is still listed, and the first one if not. */
  ghost predicate KeepsSelected(h: Hw, listing: seq<Tid>, current: nat) {
    if h.current < |h.threads| && h.threads[h.current].tid in listing
    then current < |listing| && listing[current] == h.threads[h.current].tid
    else current == 0
  }

  predicate HasSelected(h: Hw) {
    h.current < |h.threads| && h.threads[h.current].tid in h.pcs
  }

  function SelectedPc(h: Hw): Word {
    if HasSelected(h) then h.pcs[h.threads[h.current].tid] else 0
  }

  /** Is the stop a hit: a SIGTRAP with a listed thread at an armed address? */
  ghost predicate Hit(env: HwEnv, armed: set<Word>)
    requires env.event.StopEvent?
  {
    env.event.signal == 5 && AnyOn(env, armed)
  }

  /** At a hit the first thread at an armed address is selected; at any other stop the
      selection stays. The PC reported is that of the selected thread. */
  ghost predicate Selects(h: Hw, armed: set<Word>, env: HwEnv, h': Hw)
    requires env.event.StopEvent?
  {
    && h'.alive && Tids(h'.threads) == env.listing && h'.pcs == env.pcs
    && h'.last == Some(Engine.Stopped(env.event.signal, SelectedPc(h')))
    && if Hit(env, armed) then FirstOn(env, armed, h'.current) else KeepsSelected(h, env.listing, h'.current)
  }

  /** And a hit is recorded where that thread stands; any other stop leaves the record. */
  ghost predicate Sees(h: Hw, env: HwEnv, h': Hw)
    requires env.event.StopEvent?
  {
    Selects(h, h.bps, env, h') && h'.at == if Hit(env, h.bps) then Some(SelectedPc(h')) else h.at
  }

  lemma {:induction false} FirstStandingIs(h: Hw, threads: seq<Thread>)
    ensures var i := FirstStanding(h, threads);
      && i <= |threads| && (forall j :: 0 <= j < i ==> !Stands(h, threads[j]))
      && (i < |threads| ==> Stands(h, threads[i]))
    decreases |threads|
  {
    if threads != [] && !Stands(h, threads[0]) {
      FirstStandingIs(h, threads[1..]);
      hide Stands;
      forall j | 0 <= j < FirstStanding(h, threads)
        ensures !Stands(h, threads[j])
      {
        if j > 0 {
          assert threads[j] == threads[1..][j - 1];
        }
      }
    }
  }

  lemma StandingOn(h: Hw, env: HwEnv)
    requires Tids(h.threads) == env.listing && h.pcs == env.pcs
    ensures forall i: nat :: On(env, h.bps, i) <==> i < |h.threads| && Stands(h, h.threads[i])
    ensures FirstStanding(h, h.threads) < |h.threads| <==> AnyOn(env, h.bps)
    ensures FirstStanding(h, h.threads) < |h.threads| ==> FirstOn(env, h.bps, FirstStanding(h, h.threads))
  {
    FirstStandingIs(h, h.threads);
    forall i: nat
      ensures On(env, h.bps, i) <==> i < |h.threads| && Stands(h, h.threads[i])
    {
      assert i < |h.threads| ==> Tids(h.threads)[i] == h.threads[i].tid;
    }
    hide FirstStanding;
  }

  /** The look for breakpoints that follows a resume, from the session it was made from. */
  lemma HandleSees(h: Hw, h1: Hw, env: HwEnv)
    requires Shaped(h1) && h1.alive && env.event.StopEvent? && h1.bps == h.bps && h1.at == h.at
    requires Tids(h1.threads) == env.listing && h1.pcs == env.pcs && KeepsSelected(h, env.listing, h1.current)
    requires h1.last == Some(Engine.Stopped(env.event.signal, SelectedPc(h1)))
    ensures Sees(h, env, Handle(h1))
  {
    StandingOn(h1, env);
    var i := FirstStanding(h1, h1.threads);
    assert i < |h1.threads| ==> Tids(h1.threads)[i] == h1.threads[i].tid;
    hide FirstStanding;
  }

  lemma ResumeSees(h: Hw, env: HwEnv)
    requires Shaped(h) && h.alive && env.event.StopEvent?
    ensures var h1 := Resume(h, env);
      && Shaped(h1) && h1.alive && h1.bps == h.bps && h1.at == h.at
      && Tids(h1.threads) == env.listing && h1.pcs == env.pcs && KeepsSelected(h, env.listing, h1.current)
      && h1.last == Some(Engine.Stopped(env.event.signal, SelectedPc(h1)))
  {
    hide Introduced, Survive;
    IndexFinds(h, env.listing);
  }

  lemma IndexFinds(h: Hw, listing: seq<Tid>)
    requires Shaped(h)
    ensures KeepsSelected(h, listing, Refresh(h, listing).current)
  {
    hide Introduced, Relisted;
  }

  /** The last stop of a resume without a step-over. */
  lemma ContMainSees(h: Hw, env: HwEnv)
    requires Shaped(h) && h.alive && env.event.StopEvent?
    ensures var (h', out) := ContMain(h, env);
      Sees(h, env, h') && out == Engine.Done(Engine.Stopped(env.event.signal, SelectedPc(h')))
  {
    ResumeSees(h, env);
    hide Resume, Handle;
    HandleSees(h, Resume(h, env), env);
  }

  // ---------- one step

  /** The addresses armed while a step runs: the breakpoints, and the next instruction if a
      slot is free for it. */
  function ArmedInStep(h: Hw): set<Word> {
    if Plants(h) then h.bps + {Next(h)} else h.bps
  }

  lemma SelectsSame(h: Hw, armed: set<Word>, env: HwEnv, h1: Hw, h2: Hw)
    requires env.event.StopEvent? && Selects(h, armed, env, h1)
    requires h2.alive == h1.alive && h2.threads == h1.threads && h2.pcs == h1.pcs && h2.current == h1.current
    requires h2.last == h1.last
    ensures Selects(h, armed, env, h2) && SelectedPc(h2) == SelectedPc(h1) && HasSelected(h2) == HasSelected(h1)
  {
    hide FirstOn, AnyOn;
  }

  /** A hit of a temporary breakpoint selects its thread; it is not recorded. */
  ghost predicate Steps(h: Hw, armed: set<Word>, env: HwEnv, h': Hw)
    requires env.event.StopEvent?
  {
    && Selects(h, armed, env, h')
    && h'.at == if !Hit(env, armed) then h.at
                else if SelectedPc(h') in h.bps then Some(SelectedPc(h')) else None
  }

  lemma HitSelected(h: Hw, armed: set<Word>, env: HwEnv, h': Hw)
    requires env.event.StopEvent? && Selects(h, armed, env, h') && Hit(env, armed)
    ensures SelectedPc(h') in armed
  {
    assert Tids(h'.threads)[h'.current] == h'.threads[h'.current].tid;
  }

  lemma StepCurrentSees(h: Hw, i: nat, env: HwEnv)
    requires Fits(h, i) && AtOk(h) && env.event.StopEvent? && Sound(env)
    requires i < BP_SLOTS ==> h.slots[i].Some? && h.slots[i].value in h.bps
    ensures var (h', out) := StepCurrent(h, env);
      Steps(h, ArmedInStep(h), env, h') && out == Engine.Done(h'.last.value)
  {
    hide FileFits, Resume, Handle, SetBp, RemoveBp, Selects, SelectedPc;
    var a, planted := Next(h), Plants(h);
    assert CurrentPc(h).Some? && |h.slots| == BP_SLOTS by { LiveHasPc(h, i); }
    SetFits(h, i, a);
    var h1 := if planted then SetBp(h, a).0 else h;
    assert SetBp(h, a).1 <==> FirstFree(h.slots) < BP_SLOTS;
    ResumeFits(h1, i, env);
    ResumeSees(h1, env);
    HandleFits(Resume(h1, env), i);
    HandleSees(h1, Resume(h1, env), env);
    var h2 := Handle(Resume(h1, env));
    SelectsFrom(h1, h, ArmedInStep(h), env, h2);
    if planted {
      RemoveFits(h2, i, a);
      SelectsSame(h, ArmedInStep(h), env, h2, RemoveBp(h2, a).0);
    }
    if Hit(env, ArmedInStep(h)) {
      HitSelected(h, ArmedInStep(h), env, h2);
    }
  }

  lemma SelectsFrom(h1: Hw, h: Hw, armed: set<Word>, env: HwEnv, h': Hw)
    requires env.event.StopEvent? && Selects(h1, armed, env, h') && h1.threads == h.threads && h1.current == h.current
    ensures Selects(h, armed, env, h')
  {
    hide FirstOn, AnyOn, SelectedPc;
  }

  lemma StepOverSees(h: Hw, a: Word, env: HwEnv)
    requires Agree(h) && AtOk(h) && Covered(h, BP_SLOTS) && a in h.bps
    requires env.event.StopEvent? && Sound(env)
    ensures var (h', out) := StepOver(h, a, env);
      Steps(h, ArmedInStep(h), env, h') && out == Engine.Done(h'.last.value)
  {
    hide FileFits, Programmed, StepCurrent, EditThreads, Selects, SelectedPc, Hit;
    var i := SlotOf(h.slots, a);
    assert i < BP_SLOTS == |h.slots| by { CoveredSlot(h, a); }
    DisarmFits(h, i);
    var h1 := EditThreads(h, DisarmBp(i)).0;
    assert Next(h1) == Next(h) && Plants(h1) == Plants(h);
    StepCurrentFits(h1, i, env);
    StepCurrentSees(h1, i, env);
    var (h2, out) := StepCurrent(h1, env);
    if Plants(h1) {
      TempKeepsOthers(h.slots, Next(h1), true, i, a);
    }
    RearmAgrees(h2, i, a);
    SelectsFrom(h1, h, ArmedInStep(h), env, h2);
    SelectsSame(h, ArmedInStep(h), env, h2, EditThreads(h2, ArmBp(i, a)).0);
  }

  lemma StepBodySees(h: Hw, env: HwEnv)
    requires Inv(h) && env.event.StopEvent? && Sound(env)
    ensures var (h', out) := StepBody(h, env);
      Steps(h.(at := None), ArmedInStep(h), env, h') && out == Engine.Done(h'.last.value)
  {
    hide FileFits, Programmed, StepOver, StepCurrent, Selects, SelectedPc, Hit;
    var h0 := h.(at := None);
    assert Next(h0) == Next(h) && Plants(h0) == Plants(h);
    if h.at.Some? {
      StepOverSees(h0, h.at.value, env);
    } else {
      AgreeIsFits(h);
      StepCurrentSees(h, BP_SLOTS, env);
      assert h0 == h;
    }
  }

  /** `step`: selection and report as at any stop, and recorded is exactly a breakpoint the
      selected thread stands at. */
  lemma StepSees(h: Hw, env: HwEnv)
    requires Inv(h) && env.event.StopEvent? && Sound(env)
    ensures var (h', out) := StepI(h, env);
      && Selects(h, ArmedInStep(h), env, h')
      && out == Engine.Done(Engine.Stopped(env.event.signal, SelectedPc(h')))
      && h'.at == if HasSelected(h') && SelectedPc(h') in h.bps then Some(SelectedPc(h')) else None
  {
    hide Inv, StepOver, StepCurrent, Selects;
    assert Shaped(h) by { ShapedOf(h); }
    StepBodySees(h, env);
    StepBodyAgrees(h, env);
    var h1 := StepBody(h, env).0;
    SelectsFrom(h.(at := None), h, ArmedInStep(h), env, h1);
    SelectsSame(h, ArmedInStep(h), env, h1, NoteLanding(h1));
    SelectsLast(h, ArmedInStep(h), env, NoteLanding(h1));
    LandingIs(h, h1, env);
  }

  lemma SelectsLast(h: Hw, armed: set<Word>, env: HwEnv, h': Hw)
    requires env.event.StopEvent? && Selects(h, armed, env, h')
    ensures h'.alive && h'.last == Some(Engine.Stopped(env.event.signal, SelectedPc(h')))
  {
  }

  lemma LandingIs(h: Hw, h1: Hw, env: HwEnv)
    requires Shaped(h1) && h1.alive && h1.bps == h.bps && env.event.StopEvent?
    requires Steps(h.(at := None), ArmedInStep(h), env, h1)
    ensures var h' := NoteLanding(h1);
      h'.at == if HasSelected(h') && SelectedPc(h') in h.bps then Some(SelectedPc(h')) else None
  {
    if Hit(env, ArmedInStep(h)) {
      HitHas(h.(at := None), ArmedInStep(h), env, h1);
    }
    hide Selects, Hit;
  }

  lemma HitHas(h: Hw, armed: set<Word>, env: HwEnv, h': Hw)
    requires env.event.StopEvent? && Selects(h, armed, env, h') && Hit(env, armed)
    ensures HasSelected(h')
  {
    assert Tids(h'.threads)[h'.current] == h'.threads[h'.current].tid;
  }

  // ---------- `cont` and `finish`

  /** What the step-over with these addresses armed leaves for the second resume. */
  ghost predicate SteppedTo(h: Hw, armed: set<Word>, env: HwEnv, h1: Hw)
    requires env.event.StopEvent?
  {
    h1.bps == h.bps && Steps(h.(at := None), armed, env, h1)
  }

  /** `cont`: the last stop, seen from the session before it, which without a recorded
      breakpoint is the one before the command. */
  lemma ContSees(h: Hw, e1: HwEnv, e2: HwEnv) returns (h1: Hw)
    requires Inv(h) && (h.at.Some? ==> e1.event.StopEvent? && Sound(e1)) && e2.event.StopEvent?
    ensures if h.at.Some? then SteppedTo(h, ArmedInStep(h), e1, h1) else h1 == h
    ensures var (h', out) := Cont(h, e1, e2);
      Sees(h1, e2, h') && out == Engine.Done(Engine.Stopped(e2.event.signal, SelectedPc(h')))
  {
    hide FileFits, Programmed, StepOver, ContMain, Selects, SelectedPc, Hit, Sees;
    h1 := h;
    if h.at.Some? {
      StepBodySees(h, e1);
      StepBodyAgrees(h, e1);
      h1 := StepBody(h, e1).0;
      SteppedLast(h, ArmedInStep(h), e1, h1);
      assert Kept(h, h1, AfterTemp(h.slots, Next(h), Plants(h)));
    }
    ContMainSees(h1, e2);
  }

  lemma SteppedLast(h: Hw, armed: set<Word>, env: HwEnv, h1: Hw)
    requires env.event.StopEvent? && Steps(h.(at := None), armed, env, h1)
    ensures h1.alive && h1.last.Some? && h1.last.value.Stopped?
  {
    SelectsLast(h.(at := None), armed, env, h1);
    hide Selects;
  }

  /** The addresses armed while the step-over of `finish` runs, its own slot taken. */
  function ArmedInFinish(h: Hw, ret: Word): set<Word>
    requires FirstFree(h.slots) < |h.slots|
  {
    if Next(h) !in h.bps && FirstFree(h.slots[FirstFree(h.slots) := Some(ret)]) < |h.slots|
    then h.bps + {Next(h)} else h.bps
  }

  lemma FinishMainSees(h: Hw, f: nat, env: HwEnv)
    requires Shaped(h) && h.alive && f < BP_SLOTS && env.event.StopEvent?
    ensures var (h', out) := FinishMain(h, f, env);
      Sees(h, env, h') && out == Engine.Done(Engine.Stopped(env.event.signal, SelectedPc(h')))
  {
    ResumeSees(h, env);
    var h1 := DropSlot(Resume(h, env), f);
    assert h1 == Resume(h, env).(files := h1.files, slots := h1.slots);
    hide Resume, Handle, DropSlot, KeepsSelected;
    HandleSees(h, h1, env);
  }

  /** `finish`: likewise; it fails exactly when no slot is free. Its own address is no
      breakpoint of the table, so a stop there records none. */
  lemma FinishSees(h: Hw, ret: Word, e1: HwEnv, e2: HwEnv) returns (h1: Hw)
    requires Inv(h) && (h.at.Some? ==> e1.event.StopEvent? && Sound(e1)) && e2.event.StopEvent?
    ensures FirstFree(h.slots) >= BP_SLOTS ==> Finish(h, ret, e1, e2).1 == Engine.Failed
    ensures FirstFree(h.slots) < BP_SLOTS ==>
      && (if h.at.Some? then FirstFree(h.slots) < |h.slots| && SteppedTo(h, ArmedInFinish(h, ret), e1, h1)
          else h1.bps == h.bps && h1.at == h.at && h1.threads == h.threads && h1.current == h.current)
      && var (h', out) := Finish(h, ret, e1, e2);
        Sees(h1, e2, h') && out == Engine.Done(Engine.Stopped(e2.event.signal, SelectedPc(h')))
  {
    hide FileFits, Programmed, StepOver, FinishMain, EditThreads, AfterTemp, Selects, SelectedPc, Hit, Sees;
    h1 := h;
    var f := FirstFree(h.slots);
    if f < BP_SLOTS {
      ClaimAgrees(h, ret);
      h1 := Claimed(h, ret);
      if h.at.Some? {
        FinishStepSees(h, ret, e1);
        h1 := StepOver(Claimed(h, ret).(at := None), h.at.value, e1).0;
      }
      FinishMainSees(h1, f, e2);
    }
  }

  lemma FinishStepSees(h: Hw, ret: Word, e1: HwEnv)
    requires Inv(h) && h.at.Some? && FirstFree(h.slots) < BP_SLOTS && e1.event.StopEvent? && Sound(e1)
    ensures FirstFree(h.slots) < |h.slots|
    ensures var (h3, out) := StepOver(Claimed(h, ret).(at := None), h.at.value, e1);
      && SteppedTo(h, ArmedInFinish(h, ret), e1, h3) && Shaped(h3) && h3.alive
      && out.Done? && h3.last == Some(out.status) && out.status.Stopped?
  {
    hide FileFits, Programmed, StepOver, Selects, SelectedPc, Hit;
    var f := FirstFree(h.slots);
    ClaimAgrees(h, ret);
    var h0 := Claimed(h, ret).(at := None);
    assert Next(h0) == Next(h) && ArmedInStep(h0) == ArmedInFinish(h, ret);
    StepOverSees(h0, h.at.value, e1);
    FinishStepAgrees(h, ret, e1);
    var h3 := StepOver(h0, h.at.value, e1).0;
    SteppedLast(h0, ArmedInStep(h0), e1, h3);
    SelectsFrom(h0, h.(at := None), ArmedInStep(h0), e1, h3);
  }

  // ---------- the end of the target

  function EndOf(event: Engine.Event): Engine.Status
    requires !event.StopEvent?
  {
    if event.ExitEvent? then Engine.Exited(event.code) else Engine.Signaled(event.signal)
  }

  /** A target that ends in the last resume of `cont`: its exit code or signal is returned. */
  lemma ContReportsEnd(h: Hw, e1: HwEnv, e2: HwEnv)
    requires Inv(h) && (h.at.Some? ==> e1.event.StopEvent? && Sound(e1)) && !e2.event.StopEvent?
    ensures Cont(h, e1, e2).1 == Engine.Done(EndOf(e2.event))
  {
    hide FileFits, Programmed, StepOver, ContMain, Selects, SelectedPc, Hit;
    var h1 := h;
    if h.at.Some? {
      StepBodySees(h, e1);
      StepBodyAgrees(h, e1);
      h1 := StepBody(h, e1).0;
      SteppedLast(h, ArmedInStep(h), e1, h1);
    }
    MainEnds(h1, e2);
  }

  lemma MainEnds(h: Hw, env: HwEnv)
    requires Shaped(h) && h.alive && !env.event.StopEvent?
    ensures ContMain(h, env).1 == Engine.Done(EndOf(env.event))
  {
  }

  /** In a step-over the end of the target is an error; in a plain step it is reported. */
  lemma StepReportsEnd(h: Hw, env: HwEnv)
    requires Inv(h) && !env.event.StopEvent?
    ensures StepI(h, env).1 == if h.at.Some? then Engine.Failed else Engine.Done(EndOf(env.event))
    ensures h.at.Some? ==> forall e2 :: Cont(h, env, e2).1 == Engine.Failed
  {
    hide FileFits, Programmed, StepCurrent, EditThreads, ContMain;
    if h.at.Some? {
      StepOverFails(h.(at := None), h.at.value, env);
    } else {
      StepCurrentEnds(h, env);
    }
    hide StepOver;
  }

  lemma StepCurrentEnds(h: Hw, env: HwEnv)
    requires Shaped(h) && Agree(h) && !env.event.StopEvent?
    ensures var (h', out) := StepCurrent(h, env);
      out == Engine.Done(EndOf(env.event)) && h'.last == Some(EndOf(env.event)) && !h'.alive && h'.threads == h.threads
  {
    hide SetBp, RemoveBp;
    AgreeIsFits(h);
    LiveHasPc(h, BP_SLOTS);
    var a := Next(h);
    SetFits(h, BP_SLOTS, a);
    var h1 := if a in h.bps then h else SetBp(h, a).0;
    RemoveDeadKeeps(Handle(Resume(h1, env)), a);
  }

  lemma RemoveDeadKeeps(h: Hw, a: Word)
    requires Shaped(h) && !h.alive
    ensures !RemoveBp(h, a).0.alive && RemoveBp(h, a).0.last == h.last && RemoveBp(h, a).0.threads == h.threads
  {
  }

  lemma StepOverFails(h: Hw, a: Word, env: HwEnv)
    requires Agree(h) && Covered(h, BP_SLOTS) && a in h.bps && !env.event.StopEvent?
    ensures StepOver(h, a, env).1 == Engine.Failed
  {
    hide StepCurrent, EditThreads;
    CoveredSlot(h, a);
    var i := SlotOf(h.slots, a);
    DisarmFits(h, i);
    var h1 := EditThreads(h, DisarmBp(i)).0;
    StepCurrentEndsFit(h1, i, env);
    EditFails(StepCurrent(h1, env).0, ArmBp(i, a));
  }

  lemma StepCurrentEndsFit(h: Hw, i: nat, env: HwEnv)
    requires Fits(h, i) && i < BP_SLOTS && h.slots[i].Some? && !env.event.StopEvent?
    ensures var (h', out) := StepCurrent(h, env);
      out == Engine.Done(EndOf(env.event)) && !h'.alive && h'.threads == h.threads && h'.threads != []
  {
    hide SetBp, RemoveBp;
    LiveHasPc(h, i);
    var a := Next(h);
    SetFits(h, i, a);
    var h1 := if a in h.bps then h else SetBp(h, a).0;
    RemoveDeadKeeps(Handle(Resume(h1, env)), a);
  }

  lemma EditFails(h: Hw, e: Edit)
    requires Shaped(h) && InRange(e) && !h.alive && h.threads != []
    ensures !EditThreads(h, e).1
  {
  }

  /** And the same of `finish`. */
  lemma FinishReportsEnd(h: Hw, ret: Word, e1: HwEnv, e2: HwEnv)
    requires Inv(h) && FirstFree(h.slots) < BP_SLOTS
    ensures h.at.Some? && !e1.event.StopEvent? ==> Finish(h, ret, e1, e2).1 == Engine.Failed
    ensures (h.at.Some? ==> e1.event.StopEvent? && Sound(e1)) && !e2.event.StopEvent? ==>
      Finish(h, ret, e1, e2).1 == Engine.Done(EndOf(e2.event))
  {
    hide FileFits, Programmed, StepOver, FinishMain, EditThreads, AfterTemp, Selects, SelectedPc, Hit;
    var f := FirstFree(h.slots);
    ClaimAgrees(h, ret);
    if h.at.Some? && !e1.event.StopEvent? {
      StepOverFails(Claimed(h, ret).(at := None), h.at.value, e1);
    } else if !e2.event.StopEvent? && (h.at.Some? ==> Sound(e1)) {
      if h.at.Some? {
        FinishStepSees(h, ret, e1);
        FinishMainEnds(StepOver(Claimed(h, ret).(at := None), h.at.value, e1).0, f, e2);
      } else {
        FinishMainEnds(Claimed(h, ret), f, e2);
      }
    }
  }

  lemma FinishMainEnds(h: Hw, f: nat, env: HwEnv)
    requires Shaped(h) && h.alive && f < BP_SLOTS && !env.event.StopEvent?
    ensures FinishMain(h, f, env).1 == Engine.Done(EndOf(env.event))
  {
    hide ClearQuietly;
  }

  /** Once the target is gone no command that needs a thread's registers succeeds, and what
      each leaves behind: a set has claimed its slot, a removal keeps slot and entry. */
  lemma AfterTheEnd(h: Hw, a: Word, w: DebugRegs.Watch, i: nat)
    requires Shaped(h) && !h.alive && h.threads != []
    ensures var f := FirstFree(h.slots);
      SetBp(h, a) == (if f < 16 && f < |h.slots| then h.(slots := h.slots[f := Some(a)]) else h, false)
    ensures Some(a) in h.slots ==> RemoveBp(h, a) == (h, false)
    ensures Some(a) !in h.slots ==>
      RemoveBp(h, a) == (h.(bps := h.bps - {a}, at := if h.at == Some(a) then None else h.at), true)
    ensures SetWatch(h, w).0 == h && RemoveWatch(h, i) == (h, false)
  {
  }

  /** Neither do the commands that run it. */
  lemma EndedStays(h: Hw, ret: Word, e1: HwEnv, e2: HwEnv)
    requires Shaped(h) && !h.alive
    ensures h.at.None? ==> StepI(h, e1) == (h, Engine.Failed)
    ensures Cont(h, e1, e2) == (h.(at := None), Engine.Failed)
    ensures Finish(h, ret, e1, e2).1 == Engine.Failed
  {
  }

  // ---------- the selected thread and the suspended flags

  /** Selecting takes effect exactly for a listed index, and changes nothing else. */
  lemma SelectIs(h: Hw, i: nat)
    ensures var (h', ok) := Select(h, i);
      && (ok <==> i < |h.threads|) && h' == h.(current := if ok then i else h.current)
  {
  }

  /** Suspending or resuming reaches one living thread, and changes its flag alone. */
  lemma SuspendIs(h: Hw, i: nat, suspended: bool)
    ensures var (h', ok) := SetSuspended(h, i, suspended);
      && (ok <==> i < |h.threads| && h.alive && h.threads[i].tid in h.files)
      && |h'.threads| == |h.threads| && h' == h.(threads := h'.threads)
      && forall j :: 0 <= j < |h.threads| ==>
           h'.threads[j] == if ok && j == i then Thread(h.threads[j].tid, suspended) else h.threads[j]
  {
  }
}
