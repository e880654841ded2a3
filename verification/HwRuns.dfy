/** Stepping, continuing and `finish` with hardware breakpoints: registers agree with the
    tables after every command of any session, and the slot pool is what it was, except
    in the one case of `finish` that leaks a slot. */
module HwRuns {
  import opened Words
  import opened Machine
  import Engine
  import opened HwSlots
  import opened HwAgreement

  /** A recorded hit is a breakpoint of the table. */
  ghost predicate AtOk(h: Hw) {
    h.at.Some? ==> h.at.value in h.bps
  }

  predicate Holds(slots: seq<Option<Word>>, s: nat, a: Word) {
    s < |slots| && slots[s] == Some(a)
  }

  /** Every breakpoint of the table has a slot other than `but`. */
  ghost predicate Covered(h: Hw, but: nat) {
    forall a :: a in h.bps ==> exists s: nat :: s != but && Holds(h.slots, s, a)
  }

  ghost predicate Inv(h: Hw) {
    Agree(h) && AtOk(h) && Covered(h, BP_SLOTS)
  }

  // ---------- one step

  function Next(h: Hw): Word {
    match CurrentPc(h)
    case Some(pc) => Plus(pc, 4)
    case None => 0
  }

  /** Is a temporary breakpoint planted for the step? */
  predicate Plants(h: Hw) {
    Next(h) !in h.bps && FirstFree(h.slots) < |h.slots|
  }

  /** The slots after planting and removing a breakpoint at `a`. */
  function AfterTemp(slots: seq<Option<Word>>, a: Word, planted: bool): (r: seq<Option<Word>>)
    ensures |r| == |slots|
  {
    var j := FirstFree(slots);
    if planted && j < |slots| then
      var s1 := slots[j := Some(a)];
      Off(s1, SlotOf(s1, a))
    else slots
  }

  /** A temporary breakpoint leaves no trace exactly when no lower slot has its address. */
  lemma TempRestoresIff(slots: seq<Option<Word>>, a: Word, planted: bool)
    ensures AfterTemp(slots, a, planted) == slots
       <==> !(planted && FirstFree(slots) < |slots| && SlotOf(slots, a) < FirstFree(slots))
  {
    var j := FirstFree(slots);
    if planted && j < |slots| {
      var s1 := slots[j := Some(a)];
      var k := SlotOf(s1, a);
      assert k <= j by {
        assert s1[j] == Some(a);
      }
      if SlotOf(slots, a) < j {
        assert s1[SlotOf(slots, a)] == Some(a);
        assert AfterTemp(slots, a, planted)[j] == Some(a);
      } else {
        assert k == j;
        assert s1[j := None] == slots;
      }
    }
  }

  /** Slots of other addresses stay in place. */
  lemma TempKeepsOthers(slots: seq<Option<Word>>, a: Word, planted: bool, s: nat, b: Word)
    requires b != a && Holds(slots, s, b)
    ensures Holds(AfterTemp(slots, a, planted), s, b)
  {
  }

  lemma HandleFits(h: Hw, i: nat)
    requires Fits(h, i) && AtOk(h)
    ensures var h' := Handle(h);
      && Fits(h', i) && AtOk(h') && h' == h.(at := h'.at, current := h'.current, last := h'.last)
      && (h.last.Some? && h.last.value.Stopped? ==> h'.last.Some? && h'.last.value.Stopped?)
  {
  }

  lemma ResumeDies(h: Hw, env: HwEnv)
    requires Shaped(h) && !env.event.StopEvent?
    ensures !Handle(Resume(h, env)).alive && !Handle(Resume(h, env)).last.value.Stopped?
  {
  }

  lemma RemoveDead(h: Hw, a: Word)
    requires Shaped(h) && !h.alive
    ensures !RemoveBp(h, a).0.alive && RemoveBp(h, a).0.last == h.last
  {
  }

  /** One step keeps the registers in agreement, whatever slot `i` is switched off. */
  lemma StepCurrentFits(h: Hw, i: nat, env: HwEnv)
    requires Fits(h, i) && AtOk(h) && env.event.StopEvent? && Sound(env)
    requires i < BP_SLOTS ==> h.slots[i].Some? && h.slots[i].value in h.bps
    ensures var (h', out) := StepCurrent(h, env);
      && out.Done? && Fits(h', i) && AtOk(h') && h'.bps == h.bps && h'.watches == h.watches
      && h'.last == Some(out.status) && out.status.Stopped?
      && h'.slots == AfterTemp(h.slots, Next(h), Plants(h))
  {
    hide FileFits, Resume, Handle, SetBp, RemoveBp;
    var a, planted := Next(h), Plants(h);
    assert CurrentPc(h).Some? && |h.slots| == BP_SLOTS by { LiveHasPc(h, i); }
    var h1 := if planted then SetBp(h, a).0 else h;
    SetFits(h, i, a);
    assert SetBp(h, a).1 <==> FirstFree(h.slots) < BP_SLOTS;
    ResumeFits(h1, i, env);
    HandleFits(Resume(h1, env), i);
    var h2 := Handle(Resume(h1, env));
    if planted {
      RemoveFits(h2, i, a);
      assert h.bps + {a} - {a} == h.bps;
    }
  }

  lemma LiveHasPc(h: Hw, i: nat)
    requires Fits(h, i)
    ensures CurrentPc(h).Some? && |h.slots| == BP_SLOTS
  {
    assert Tids(h.threads)[h.current] == h.threads[h.current].tid;
  }

  lemma StepCurrentDies(h: Hw, env: HwEnv)
    requires Shaped(h) && h.alive && CurrentPc(h).Some? && !env.event.StopEvent?
    ensures !StepCurrent(h, env).0.alive
  {
    hide Resume, Handle, SetBp, RemoveBp;
    var a := Next(h);
    var h1 := if a in h.bps then h else SetBp(h, a).0;
    ResumeDies(h1, env);
    RemoveDead(Handle(Resume(h1, env)), a);
  }

  /** Slot `i` off in all threads. */
  lemma DisarmFits(h: Hw, i: nat)
    requires Agree(h) && i < BP_SLOTS
    ensures var (h', ok) := EditThreads(h, DisarmBp(i));
      ok && Fits(h', i) && h' == h.(files := h'.files)
  {
    hide Edited, Programmed;
    EditReachesAll(h, DisarmBp(i));
    EditProgrammed(h.slots, h.watches, DisarmBp(i));
  }

  /** A thread's registers stop it at `a`. */
  predicate StopsAt(f: File, a: Word)
    requires f.Shaped()
  {
    exists s: nat :: s < BP_SLOTS && ArmedFor(f, s, a)
  }

  predicate ArmedFor(f: File, s: nat, a: Word)
    requires f.Shaped() && s < BP_SLOTS
  {
    f.bvr[s] == a && f.bcr[s] == BCR_ENABLE
  }

  /** Switching the slot of `a` off lets a thread pass `a` exactly when no other slot holds
      the same address, as the slot of `finish` may. */
  lemma StepOverDisarmsIff(h: Hw, a: Word, t: Tid)
    requires Agree(h) && t in h.files && SlotOf(h.slots, a) < BP_SLOTS
    ensures var i := SlotOf(h.slots, a);
      var f := EditThreads(h, DisarmBp(i)).0.files[t];
      !StopsAt(f, a) <==> forall s: nat :: s != i ==> !Holds(h.slots, s, a)
  {
    var i := SlotOf(h.slots, a);
    EditReachesAll(h, DisarmBp(i));
    EditProgrammed(h.slots, h.watches, DisarmBp(i));
    var f := EditThreads(h, DisarmBp(i)).0.files[t];
    var off := h.slots[i := None];
    assert f == Programmed(off, h.watches);
    forall s: nat | s < BP_SLOTS
      ensures ArmedFor(f, s, a) <==> s != i && Holds(h.slots, s, a)
    {
      assert f.bvr[s] == off[s].GetOr(0);
    }
  }

  /** And on again, in the threads of the moment. */
  lemma RearmAgrees(h: Hw, i: nat, a: Word)
    requires Fits(h, i) && Holds(h.slots, i, a)
    ensures var (h', ok) := EditThreads(h, ArmBp(i, a));
      ok && Agree(h') && h' == h.(files := h'.files)
  {
    hide Edited, Programmed;
    EditReachesAll(h, ArmBp(i, a));
    EditProgrammed(h.slots, h.watches, ArmBp(i, a));
    EditProgrammed(Off(h.slots, i), h.watches, ArmBp(i, a));
    assert h.slots[i := Some(a)] == h.slots && Off(h.slots, i)[i := Some(a)] == h.slots;
  }

  /** Step-over: disarmed for the step, re-armed after it in old and new threads alike. */
  lemma StepOverAgrees(h: Hw, a: Word, env: HwEnv)
    requires Agree(h) && AtOk(h) && Covered(h, BP_SLOTS) && a in h.bps
    requires env.event.StopEvent? && Sound(env)
    ensures var (h', out) := StepOver(h, a, env);
      && out.Done? && Agree(h') && AtOk(h') && h'.bps == h.bps && h'.watches == h.watches
      && h'.last == Some(out.status) && out.status.Stopped?
      && h'.slots == AfterTemp(h.slots, Next(h), Plants(h))
  {
    hide FileFits, Programmed, StepCurrent, EditThreads;
    var i := SlotOf(h.slots, a);
    assert i < BP_SLOTS == |h.slots| by { CoveredSlot(h, a); }
    DisarmFits(h, i);
    var h1 := EditThreads(h, DisarmBp(i)).0;
    StepCurrentFits(h1, i, env);
    var (h2, out) := StepCurrent(h1, env);
    if Plants(h1) {
      TempKeepsOthers(h.slots, Next(h1), true, i, a);
    }
    RearmAgrees(h2, i, a);
  }

  lemma CoveredSlot(h: Hw, a: Word)
    requires Agree(h) && Covered(h, BP_SLOTS) && a in h.bps
    ensures SlotOf(h.slots, a) < BP_SLOTS == |h.slots|
  {
    var s: nat :| s != BP_SLOTS && Holds(h.slots, s, a);
  }

  lemma StepOverDies(h: Hw, a: Word, env: HwEnv)
    requires Agree(h) && Covered(h, BP_SLOTS) && a in h.bps && !env.event.StopEvent?
    ensures !StepOver(h, a, env).0.alive
  {
    hide StepCurrent, EditThreads;
    CoveredSlot(h, a);
    var i := SlotOf(h.slots, a);
    DisarmFits(h, i);
    var h1 := EditThreads(h, DisarmBp(i)).0;
    LiveHasPc(h1, i);
    StepCurrentDies(h1, env);
    EditDead(StepCurrent(h1, env).0, ArmBp(i, a));
  }

  lemma EditDead(h: Hw, e: Edit)
    requires Shaped(h) && InRange(e)
    ensures EditThreads(h, e).0 == h.(files := EditThreads(h, e).0.files)
  {
  }

  lemma TempCovers(h: Hw, slots: seq<Option<Word>>, but: nat)
    requires Covered(h, but) && slots == AfterTemp(h.slots, Next(h), Plants(h))
    ensures forall a :: a in h.bps ==> exists s: nat :: s != but && Holds(slots, s, a)
  {
    forall a | a in h.bps
      ensures exists s: nat :: s != but && Holds(slots, s, a)
    {
      var s: nat :| s != but && Holds(h.slots, s, a);
      if Plants(h) {
        TempKeepsOthers(h.slots, Next(h), true, s, a);
      }
      assert Holds(slots, s, a);
    }
  }

  // ---------- the commands

  lemma ContMainAgrees(h: Hw, env: HwEnv)
    requires Inv(h) && env.event.StopEvent? && Sound(env)
    ensures var (h', out) := ContMain(h, env);
      && out.Done? && Inv(h') && h'.slots == h.slots && h'.bps == h.bps && h'.watches == h.watches
  {
    hide FileFits, Resume, Handle;
    AgreeIsFits(h);
    ResumeFits(h, BP_SLOTS, env);
    HandleFits(Resume(h, env), BP_SLOTS);
    AgreeIsFits(Handle(Resume(h, env)));
  }

  /** What a command keeps while the target lives. */
  ghost predicate Kept(h: Hw, h': Hw, slots: seq<Option<Word>>) {
    h'.alive ==> Inv(h') && h'.slots == slots && h'.bps == h.bps && h'.watches == h.watches
  }

  ghost predicate Good(env: HwEnv) {
    env.event.StopEvent? ==> Sound(env)
  }

  /** The step without the look at where it landed. */
  function StepBody(h: Hw, env: HwEnv): (Hw, Engine.Outcome)
    requires Shaped(h)
  {
    if h.at.Some? then StepOver(h.(at := None), h.at.value, env) else StepCurrent(h, env)
  }

  lemma StepBodyAgrees(h: Hw, env: HwEnv)
    requires Inv(h) && env.event.StopEvent? && Sound(env)
    ensures var (h', out) := StepBody(h, env);
      && out.Done? && h'.last == Some(out.status) && h'.alive
      && Kept(h, h', AfterTemp(h.slots, Next(h), Plants(h)))
  {
    hide FileFits, Programmed, StepOver, StepCurrent;
    if h.at.Some? {
      StepOverAgrees(h.(at := None), h.at.value, env);
    } else {
      AgreeIsFits(h);
      StepCurrentFits(h, BP_SLOTS, env);
      AgreeIsFits(StepCurrent(h, env).0);
    }
    TempCovers(h, AfterTemp(h.slots, Next(h), Plants(h)), BP_SLOTS);
  }

  lemma StepBodyDies(h: Hw, env: HwEnv)
    requires Inv(h) && !env.event.StopEvent?
    ensures !StepBody(h, env).0.alive
  {
    hide FileFits, Programmed, StepOver, StepCurrent;
    if h.at.Some? {
      StepOverDies(h.(at := None), h.at.value, env);
    } else {
      AgreeIsFits(h);
      LiveHasPc(h, BP_SLOTS);
      StepCurrentDies(h, env);
    }
  }

  lemma LandingAgrees(h: Hw)
    requires Inv(h)
    ensures var h' := NoteLanding(h); Inv(h') && h' == h.(at := h'.at)
  {
  }

  /** `step` */
  lemma StepIAgrees(h: Hw, env: HwEnv)
    requires Inv(h) && Good(env)
    ensures var (h', out) := StepI(h, env);
      && (env.event.StopEvent? ==> h'.alive && out.Done?)
      && Kept(h, h', AfterTemp(h.slots, Next(h), Plants(h)))
  {
    hide Inv, StepOver, StepCurrent;
    assert Shaped(h) by { ShapedOf(h); }
    if env.event.StopEvent? {
      StepBodyAgrees(h, env);
      LandingAgrees(StepBody(h, env).0);
    } else {
      StepBodyDies(h, env);
    }
  }

  lemma ShapedOf(h: Hw)
    requires Inv(h)
    ensures Shaped(h)
  {
  }

  lemma ContDies(h: Hw, env: HwEnv)
    requires Shaped(h) && !env.event.StopEvent?
    ensures !ContMain(h, env).0.alive
  {
    ResumeDies(h, env);
  }

  lemma MainDead(h: Hw, env: HwEnv)
    requires Shaped(h) && !h.alive
    ensures !ContMain(h, env).0.alive
  {
  }

  /** `cont` */
  lemma ContAgrees(h: Hw, e1: HwEnv, e2: HwEnv)
    requires Inv(h) && Good(e1) && Good(e2)
    ensures Kept(h, Cont(h, e1, e2).0,
                 if h.at.Some? then AfterTemp(h.slots, Next(h), Plants(h)) else h.slots)
    ensures (h.at.Some? ==> e1.event.StopEvent?) && e2.event.StopEvent? ==>
      Cont(h, e1, e2).0.alive && Cont(h, e1, e2).1.Done?
  {
    hide FileFits, Programmed, StepOver, ContMain;
    var h0 := h.(at := None);
    assert Next(h0) == Next(h) && Plants(h0) == Plants(h) && Inv(h0);
    var h1 := h;
    if h.at.Some? {
      h1 := StepOver(h0, h.at.value, e1).0;
      if e1.event.StopEvent? {
        StepOverAgrees(h0, h.at.value, e1);
        TempCovers(h, AfterTemp(h.slots, Next(h), Plants(h)), BP_SLOTS);
      } else {
        StepOverDies(h0, h.at.value, e1);
        MainDead(h1, e2);
        return;
      }
    }
    if e2.event.StopEvent? {
      ContMainAgrees(h1, e2);
    } else {
      ContDies(h1, e2);
    }
  }

  // ---------- finish

  /** The slot claimed by `finish`, armed in every thread but not in the table. */
  function Claimed(h: Hw, ret: Word): (h': Hw)
    requires Shaped(h) && FirstFree(h.slots) < BP_SLOTS
    ensures Shaped(h')
  {
    EditThreads(Alloc(h, ret).0, ArmBp(FirstFree(h.slots), ret)).0
  }

  lemma ClaimAgrees(h: Hw, ret: Word)
    requires Inv(h) && FirstFree(h.slots) < BP_SLOTS
    ensures var f := FirstFree(h.slots); var h' := Claimed(h, ret);
      && EditThreads(Alloc(h, ret).0, ArmBp(f, ret)).1
      && Inv(h') && Covered(h', f) && h' == h.(files := h'.files, slots := h.slots[f := Some(ret)])
  {
    hide Edited, Programmed;
    var f := FirstFree(h.slots);
    var h1 := Alloc(h, ret).0;
    assert Live(h1);
    EditReachesAll(h1, ArmBp(f, ret));
    EditProgrammed(h.slots, h.watches, ArmBp(f, ret));
    forall a | a in h.bps
      ensures exists s: nat :: s != f && Holds(h1.slots, s, a)
      ensures exists s: nat :: s != BP_SLOTS && Holds(h1.slots, s, a)
    {
      var s: nat :| s != BP_SLOTS && Holds(h.slots, s, a);
      assert s != f && Holds(h1.slots, s, a);
    }
  }

  lemma DropAgrees(h: Hw, f: nat)
    requires Agree(h) && AtOk(h) && f < BP_SLOTS && Covered(h, f)
    ensures var h' := DropSlot(h, f);
      Inv(h') && h' == h.(files := h'.files, slots := h.slots[f := None])
  {
    hide Edited, Programmed;
    var h' := DropSlot(h, f);
    EditProgrammed(h.slots, h.watches, DisarmBp(f));
    forall a | a in h'.bps
      ensures exists s: nat :: s != BP_SLOTS && Holds(h'.slots, s, a)
    {
      var s: nat :| s != f && Holds(h.slots, s, a);
      assert s != BP_SLOTS && Holds(h'.slots, s, a);
    }
  }

  lemma FinishMainAgrees(h: Hw, f: nat, env: HwEnv)
    requires Agree(h) && AtOk(h) && f < BP_SLOTS && Covered(h, f) && env.event.StopEvent? && Sound(env)
    ensures var (h', out) := FinishMain(h, f, env);
      && out.Done? && h'.alive && Inv(h')
      && h'.slots == h.slots[f := None] && h'.bps == h.bps && h'.watches == h.watches
  {
    hide FileFits, Programmed, Resume, Handle, DropSlot;
    AgreeIsFits(h);
    ResumeFits(h, BP_SLOTS, env);
    AgreeIsFits(Resume(h, env));
    DropAgrees(Resume(h, env), f);
    var h1 := DropSlot(Resume(h, env), f);
    AgreeIsFits(h1);
    HandleFits(h1, BP_SLOTS);
    AgreeIsFits(Handle(h1));
  }

  lemma FinishMainDies(h: Hw, f: nat, env: HwEnv)
    requires Shaped(h) && f < BP_SLOTS && !env.event.StopEvent?
    ensures !FinishMain(h, f, env).0.alive
  {
  }

  /** The slots after `finish`. */
  function SlotsAfterFinish(h: Hw, ret: Word): seq<Option<Word>>
    requires Shaped(h)
  {
    var f := FirstFree(h.slots);
    if f == BP_SLOTS then h.slots
    else
      var s1 := h.slots[f := Some(ret)];
      (if h.at.Some? then AfterTemp(s1, Next(h), Next(h) !in h.bps) else s1)[f := None]
  }

  lemma FinishDeadStep(h: Hw, ret: Word, e1: HwEnv, e2: HwEnv)
    requires Inv(h) && h.at.Some? && !e1.event.StopEvent? && FirstFree(h.slots) < BP_SLOTS
    ensures !Finish(h, ret, e1, e2).0.alive
  {
    hide FileFits, Programmed, StepOver;
    ClaimAgrees(h, ret);
    StepOverDies(Claimed(h, ret).(at := None), h.at.value, e1);
  }

  /** The step-over inside `finish`, with the claimed slot in place. */
  lemma FinishStepAgrees(h: Hw, ret: Word, e1: HwEnv)
    requires Inv(h) && h.at.Some? && FirstFree(h.slots) < BP_SLOTS && e1.event.StopEvent? && Sound(e1)
    ensures var f := FirstFree(h.slots);
      var (h3, out) := StepOver(Claimed(h, ret).(at := None), h.at.value, e1);
      && out.Done? && out.status.Stopped? && h3.last == Some(out.status)
      && Agree(h3) && AtOk(h3) && Covered(h3, f) && h3.bps == h.bps && h3.watches == h.watches
      && h3.slots == AfterTemp(h.slots[f := Some(ret)], Next(h), Next(h) !in h.bps)
  {
    hide FileFits, Programmed, StepOver;
    var f := FirstFree(h.slots);
    ClaimAgrees(h, ret);
    var h0 := Claimed(h, ret).(at := None);
    assert Next(h0) == Next(h);
    StepOverAgrees(h0, h.at.value, e1);
    TempCovers(h0, AfterTemp(h0.slots, Next(h0), Plants(h0)), f);
  }

  /** `finish` */
  lemma FinishAgrees(h: Hw, ret: Word, e1: HwEnv, e2: HwEnv)
    requires Inv(h) && Good(e1) && Good(e2)
    ensures Kept(h, Finish(h, ret, e1, e2).0, SlotsAfterFinish(h, ret))
    ensures (h.at.Some? ==> e1.event.StopEvent?) && e2.event.StopEvent? ==>
      Finish(h, ret, e1, e2).0.alive && (Finish(h, ret, e1, e2).1.Done? <==> FirstFree(h.slots) < BP_SLOTS)
  {
    hide FileFits, Programmed, StepOver, FinishMain, EditThreads, AfterTemp;
    var f := FirstFree(h.slots);
    if f < BP_SLOTS {
      ClaimAgrees(h, ret);
      var h2 := Claimed(h, ret);
      if h.at.Some? {
        if !e1.event.StopEvent? {
          FinishDeadStep(h, ret, e1, e2);
          return;
        }
        FinishStepAgrees(h, ret, e1);
        h2 := StepOver(h2.(at := None), h.at.value, e1).0;
      }
      if e2.event.StopEvent? {
        FinishMainAgrees(h2, f, e2);
      } else {
        FinishMainDies(h2, f, e2);
      }
    }
  }
}
