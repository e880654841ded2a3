/** One concrete hardware session for each promise the ARM64 code does not keep. */
module HwWitnesses {
  import opened Words
  import opened DebugRegs
  import opened HwSlots
  import opened HwAgreement
  import opened HwRuns
  import opened HwSessions
  import Engine

  function Start(): (h: Hw)
    ensures Shaped(h)
  {
    Refresh(Attached([1], map[1 := 100]), [1])
  }

  /** One thread, at 100, and nothing set. */
  ghost predicate IsStart(h: Hw) {
    && Inv(h) && Neat(h) && h.bps == {} && CurrentPc(h) == Some(100) && 1 in h.files
    && |h.slots| == BP_SLOTS && forall s :: 0 <= s < BP_SLOTS ==> h.slots[s] == None
  }

  lemma StartIs()
    ensures IsStart(Start())
  {
    AttachAgrees([1], map[1 := 100]);
    hide Inv, Neat;
    assert Start().current == 0 && Start().threads[0].tid == 1;
  }

  /** The same with a breakpoint at 100, recorded as the last stop. */
  ghost predicate IsHit(h: Hw) {
    && Inv(h) && Neat(h) && h.bps == {100} && h.at == Some(100) && Next(h) == 104 && 1 in h.files
    && |h.slots| == BP_SLOTS && h.slots[0] == Some(100)
    && h.slots[1] == None && h.slots[2] == None
  }

  lemma MarkHit(h: Hw, a: Word)
    requires Inv(h) && Neat(h) && a in h.bps
    ensures Inv(h.(at := Some(a))) && Neat(h.(at := Some(a)))
    ensures CurrentPc(h.(at := Some(a))) == CurrentPc(h)
  {
  }

  lemma SetKeeps(h: Hw, a: Word)
    requires Shaped(h)
    ensures CurrentPc(SetBp(h, a).0) == CurrentPc(h) && SetBp(h, a).0.files.Keys == h.files.Keys
  {
    hide EditAll;
  }

  lemma SetAtStart(h: Hw)
    requires IsStart(h)
    ensures Shaped(h)
    ensures var h1 := SetBp(h, 100).0;
      && Inv(h1) && Neat(h1) && h1.bps == {100} && CurrentPc(h1) == Some(100) && 1 in h1.files
      && h1.slots == h.slots[0 := Some(100)]
  {
    ShapedOf(h);
    assert FirstFree(h.slots) == 0;
    hide SetBp, FirstFree, Inv, Neat, CurrentPc;
    SetInv(h, 100);
    SetNeatIff(h, 100);
    SetKeeps(h, 100);
  }

  lemma HitOf(h1: Hw)
    requires Inv(h1) && Neat(h1) && h1.bps == {100} && CurrentPc(h1) == Some(100) && 1 in h1.files
    requires |h1.slots| == BP_SLOTS && h1.slots[0] == Some(100) && h1.slots[1] == None && h1.slots[2] == None
    ensures IsHit(h1.(at := Some(100)))
  {
    MarkHit(h1, 100);
    hide Inv, Neat, CurrentPc, Next;
    NextIs(h1.(at := Some(100)));
  }

  lemma HitFrom(h: Hw)
    requires IsStart(h)
    ensures Shaped(h) && IsHit(SetBp(h, 100).0.(at := Some(100)))
  {
    SetAtStart(h);
    hide Inv, Neat, CurrentPc, IsHit, SetBp;
    HitOf(SetBp(h, 100).0);
  }

  lemma NextIs(h: Hw)
    requires CurrentPc(h) == Some(100)
    ensures Next(h) == 104
  {
    hide CurrentPc;
  }

  /** There is such a session. */
  lemma HitExists()
    ensures IsHit(SetBp(Start(), 100).0.(at := Some(100)))
  {
    StartIs();
    hide IsStart, IsHit, SetBp, Start;
    HitFrom(Start());
  }

  // ---------- two slots for one address

  lemma SecondFree(s: seq<Option<Word>>)
    requires |s| == BP_SLOTS && s[0].Some? && s[1] == None && s[2] == None
    ensures FirstFree(s) == 1 && FirstFree(s[1 := Some(104)]) == 2
  {
    assert s[1..][0] == None;
    var s1 := s[1 := Some(104)];
    assert s1[1..][0].Some? && s1[1..][1..][0] == None;
    assert FirstFree(s1[1..]) == 1;
  }

  /** Setting the breakpoint at 100 again takes a second slot. */
  lemma SetTwiceTakesTwo(h: Hw)
    requires IsHit(h)
    ensures Shaped(h) && Inv(SetBp(h, 100).0) && !Neat(SetBp(h, 100).0)
    ensures SetBp(h, 100).0.slots == h.slots[1 := Some(100)]
  {
    ShapedOf(h);
    SecondFree(h.slots);
    hide SetBp, FirstFree, Inv, Neat;
    SetInv(h, 100);
    SetNeatIff(h, 100);
  }

  /** Stepping over 100 then switches off one of the two: the thread still stops there. */
  lemma StepOverStillArmed(h: Hw, twice: Hw)
    requires IsHit(h) && Shaped(h) && twice == SetBp(h, 100).0
    ensures Inv(twice) && 1 in twice.files && SlotOf(twice.slots, 100) == 0
    ensures StopsAt(EditThreads(twice, DisarmBp(0)).0.files[1], 100)
  {
    SetTwiceTakesTwo(h);
    SetKeeps(h, 100);
    assert SlotOf(twice.slots, 100) == 0;
    assert Holds(twice.slots, 1, 100);
    AgreeOf(twice);
    hide SetBp, Inv, Agree, StopsAt, SlotOf, Neat;
    StepOverDisarmsIff(twice, 100, 1);
  }

  lemma AgreeOf(h: Hw)
    requires Inv(h)
    ensures Agree(h)
  {
  }

  // ---------- the leaked slot

  /** A stop to come, with the thread wherever it may be. */
  function Stop(pc: Word): HwEnv {
    HwEnv([1], map[1 := pc], Engine.StopEvent(Engine.SIGTRAP))
  }

  lemma HitCollides(h: Hw)
    requires IsHit(h)
    ensures Shaped(h) && Collides(h, 104)
  {
    ShapedOf(h);
    SecondFree(h.slots);
    hide Inv, Neat, FirstFree;
  }

  /** Stopped at a call at 100, `finish` back to 104: slot 2 stays taken by the return
      address, whatever happens meanwhile. */
  lemma FinishLeaksSlot(h: Hw, pc1: Word, pc2: Word)
    requires IsHit(h)
    ensures Shaped(h) && h.slots[2] == None && 104 !in h.bps
    ensures var h' := Finish(h, 104, Stop(pc1), Stop(pc2)).0;
      h'.alive ==> h'.slots == h.slots[2 := Some(104)] && h'.bps == {100}
  {
    HitCollides(h);
    SecondFree(h.slots);
    hide Inv, Neat, Collides, FirstFree, Finish, SlotsAfterFinish;
    FinishRestoresIff(h, 104);
    DoAgrees(h, FinishTo(104, Stop(pc1), Stop(pc2)));
  }

  // ---------- a watchpoint across a boundary

  /** Four bytes from 6 on: the last two lie in the next group and are not watched. */
  lemma CrossingIsCut()
    ensures var (wvr, wcr) := WcrEncode(6, Write, Dword4);
      WatchesByte(wvr, wcr, 7) && !WatchesByte(wvr, wcr, 8) && !WatchesByte(wvr, wcr, 9)
  {
    WatchedBytes(6, Write, Dword4, 7);
    WatchedBytes(6, Write, Dword4, 8);
    WatchedBytes(6, Write, Dword4, 9);
    hide WcrEncode, WatchesByte;
  }
}
