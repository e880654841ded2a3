/** Whole sessions with hardware breakpoints: agreement, injective slots, and what `finish`
    does to the pool. */
module HwSessions {
  import opened Words
  import opened Machine
  import DebugRegs
  import Engine
  import opened HwSlots
  import opened HwAgreement
  import opened HwRuns

  datatype HwCmd =
    | SetAt(a: Word)
    | RemoveAt(a: Word)
    | WatchAt(watch: DebugRegs.Watch)
    | UnwatchAt(slot: nat)
    | StepOne(e: HwEnv)
    | Continue(e1: HwEnv, e2: HwEnv)
    | FinishTo(ret: Word, e1: HwEnv, e2: HwEnv)
    | Pick(i: nat)
    | Suspend(i: nat, suspended: bool)

  function Do(h: Hw, cmd: HwCmd): (h': Hw)
    requires Shaped(h)
    ensures Shaped(h')
  {
    match cmd
    case SetAt(a) => SetBp(h, a).0
    case RemoveAt(a) => RemoveBp(h, a).0
    case WatchAt(w) => SetWatch(h, w).0
    case UnwatchAt(i) => RemoveWatch(h, i).0
    case StepOne(e) => StepI(h, e).0
    case Continue(e1, e2) => Cont(h, e1, e2).0
    case FinishTo(ret, e1, e2) => Finish(h, ret, e1, e2).0
    case Pick(i) => Select(h, i).0
    case Suspend(i, s) => SetSuspended(h, i, s).0
  }

  ghost predicate Usual(cmd: HwCmd) {
    match cmd
    case StepOne(e) => Good(e)
    case Continue(e1, e2) => Good(e1) && Good(e2)
    case FinishTo(_, e1, e2) => Good(e1) && Good(e2)
    case _ => true
  }

  lemma SetInv(h: Hw, a: Word)
    requires Inv(h)
    ensures var (h', ok) := SetBp(h, a);
      && Inv(h') && (ok <==> FirstFree(h.slots) < BP_SLOTS)
      && h'.slots == (if ok then h.slots[FirstFree(h.slots) := Some(a)] else h.slots)
      && h'.bps == (if ok then h.bps + {a} else h.bps)
  {
    hide FileFits, Programmed, SetBp;
    AgreeIsFits(h);
    SetFits(h, BP_SLOTS, a);
    var (h', ok) := SetBp(h, a);
    AgreeIsFits(h');
    forall b | b in h'.bps
      ensures exists s: nat :: s != BP_SLOTS && Holds(h'.slots, s, b)
    {
      if b in h.bps {
        var s: nat :| s != BP_SLOTS && Holds(h.slots, s, b);
        assert Holds(h'.slots, s, b);
      } else {
        assert Holds(h'.slots, FirstFree(h.slots), b);
      }
    }
  }

  lemma RemoveInv(h: Hw, a: Word)
    requires Inv(h)
    ensures var (h', ok) := RemoveBp(h, a);
      && ok && Inv(h') && h'.slots == Off(h.slots, SlotOf(h.slots, a)) && h'.bps == h.bps - {a}
  {
    hide FileFits, Programmed, RemoveBp;
    AgreeIsFits(h);
    RemoveFits(h, BP_SLOTS, a);
    var (h', ok) := RemoveBp(h, a);
    AgreeIsFits(h');
    forall b | b in h'.bps
      ensures exists s: nat :: s != BP_SLOTS && Holds(h'.slots, s, b)
    {
      var s: nat :| s != BP_SLOTS && Holds(h.slots, s, b);
      assert Holds(h'.slots, s, b);
    }
  }

  lemma WatchInv(h: Hw, w: DebugRegs.Watch, i: nat)
    requires Inv(h)
    ensures Inv(SetWatch(h, w).0) && Inv(RemoveWatch(h, i).0)
    ensures SetWatch(h, w).0.slots == h.slots == RemoveWatch(h, i).0.slots
    ensures SetWatch(h, w).0.bps == h.bps == RemoveWatch(h, i).0.bps
  {
    SetWatchAgrees(h, w);
    RemoveWatchAgrees(h, i);
  }

  lemma SuspendInv(h: Hw, i: nat, s: bool)
    requires Inv(h)
    ensures var (h', ok) := SetSuspended(h, i, s);
      && Inv(h') && h' == h.(threads := h'.threads) && Tids(h'.threads) == Tids(h.threads)
      && (ok <==> i < |h.threads|)
  {
    var h' := SetSuspended(h, i, s).0;
    assert Tids(h'.threads) == Tids(h.threads);
    if i < |h.threads| {
      assert Tids(h.threads)[i] == h.threads[i].tid;
    }
  }

  /** The tables after a command. */
  function SlotsAfter(h: Hw, cmd: HwCmd): seq<Option<Word>>
    requires Shaped(h)
  {
    match cmd
    case SetAt(a) => if FirstFree(h.slots) < BP_SLOTS then h.slots[FirstFree(h.slots) := Some(a)] else h.slots
    case RemoveAt(a) => Off(h.slots, SlotOf(h.slots, a))
    case StepOne(_) => AfterTemp(h.slots, Next(h), Plants(h))
    case Continue(_, _) => if h.at.Some? then AfterTemp(h.slots, Next(h), Plants(h)) else h.slots
    case FinishTo(ret, _, _) => SlotsAfterFinish(h, ret)
    case _ => h.slots
  }

  function BpsAfter(h: Hw, cmd: HwCmd): set<Word> {
    match cmd
    case SetAt(a) => if FirstFree(h.slots) < BP_SLOTS then h.bps + {a} else h.bps
    case RemoveAt(a) => h.bps - {a}
    case _ => h.bps
  }

  /** Any command, arbitrary threads coming and going meanwhile, leaves every thread's
      registers in agreement with the tables. */
  lemma DoAgrees(h: Hw, cmd: HwCmd)
    requires Inv(h) && Usual(cmd)
    ensures Shaped(h)
    ensures var h' := Do(h, cmd); h'.alive ==> Inv(h') && h'.slots == SlotsAfter(h, cmd) && h'.bps == BpsAfter(h, cmd)
  {
    ShapedOf(h);
    hide Inv, SetBp, RemoveBp, SetWatch, RemoveWatch, StepI, Cont, Finish, SetSuspended, AfterTemp, SlotsAfterFinish;
    match cmd
    case SetAt(a) => SetInv(h, a);
    case RemoveAt(a) => RemoveInv(h, a);
    case WatchAt(w) => WatchInv(h, w, 0);
    case UnwatchAt(i) => UnwatchInv(h, i);
    case StepOne(e) => StepIAgrees(h, e);
    case Continue(e1, e2) => ContAgrees(h, e1, e2);
    case FinishTo(ret, e1, e2) => FinishAgrees(h, ret, e1, e2);
    case Pick(i) => PickInv(h, i);
    case Suspend(i, s) => SuspendInv(h, i, s);
  }

  lemma UnwatchInv(h: Hw, i: nat)
    requires Inv(h)
    ensures Inv(RemoveWatch(h, i).0) && RemoveWatch(h, i).0.slots == h.slots && RemoveWatch(h, i).0.bps == h.bps
  {
    RemoveWatchAgrees(h, i);
  }

  lemma PickInv(h: Hw, i: nat)
    requires Inv(h)
    ensures Inv(Select(h, i).0) && Select(h, i).0 == h.(current := Select(h, i).0.current)
  {
  }

  /** The tables before anything is set, with the first listing not read yet. */
  function Attached(listing: seq<Tid>, pcs: map<Tid, Word>): (h: Hw)
    ensures Shaped(h)
  {
    Hw(true, Survive(map[], listing), pcs, [], 0, Nones(BP_SLOTS), Nones(WP_SLOTS), {}, None, None)
  }

  function Nones<T>(n: nat): (s: seq<Option<T>>)
    ensures |s| == n && forall i :: 0 <= i < n ==> s[i] == None
  {
    if n == 0 then [] else [None] + Nones(n - 1)
  }

  /** A session starts in agreement, with neat slots. */
  lemma AttachAgrees(listing: seq<Tid>, pcs: map<Tid, Word>)
    requires Sound(HwEnv(listing, pcs, Engine.StopEvent(Engine.SIGTRAP)))
    ensures Inv(Refresh(Attached(listing, pcs), listing)) && Neat(Refresh(Attached(listing, pcs), listing))
  {
    hide Programmed, ApplyExisting, Clear, SuspendedFlag, Nones;
    var h := Attached(listing, pcs);
    ApplyPrograms(h.slots, h.watches);
    var h' := Refresh(h, listing);
    forall k, l | 0 <= k < l < |h'.threads|
      ensures h'.threads[k].tid != h'.threads[l].tid
    {
      assert Tids(h'.threads)[k] == listing[k] && Tids(h'.threads)[l] == listing[l];
    }
  }

  function DoAll(h: Hw, cmds: seq<HwCmd>): (h': Hw)
    requires Shaped(h)
    ensures Shaped(h')
    decreases |cmds|
  {
    if cmds == [] || !h.alive then h else DoAll(Do(h, cmds[0]), cmds[1..])
  }

  /** Agreement over any run of any commands. */
  lemma {:induction false} RunAgrees(h: Hw, cmds: seq<HwCmd>)
    requires Inv(h) && forall i :: 0 <= i < |cmds| ==> Usual(cmds[i])
    ensures Shaped(h) && (DoAll(h, cmds).alive ==> Inv(DoAll(h, cmds)))
    decreases |cmds|
  {
    ShapedOf(h);
    hide Inv, Do, Usual;
    if cmds != [] {
      DoAgrees(h, cmds[0]);
      var h1 := Do(h, cmds[0]);
      if h1.alive {
        RunAgrees(h1, cmds[1..]);
      }
    }
  }

  // ---------- injective slots

  /** The slots hold the table's breakpoints, each once, and nothing else. */
  ghost predicate Neat(h: Hw) {
    && (forall a :: a in h.bps <==> exists s: nat :: Holds(h.slots, s, a))
    && (forall s: nat, t: nat, a: Word :: Holds(h.slots, s, a) && Holds(h.slots, t, a) ==> s == t)
  }

  lemma NeatSlot(h: Hw, a: Word)
    requires Neat(h)
    ensures a in h.bps <==> SlotOf(h.slots, a) < |h.slots|
  {
    var s := SlotOf(h.slots, a);
    if s < |h.slots| {
      assert Holds(h.slots, s, a);
    }
    if a in h.bps {
      var t: nat :| Holds(h.slots, t, a);
    }
  }

  /** Steps and continues leave the slot table as it was. */
  lemma StepKeepsSlots(h: Hw)
    requires Neat(h)
    ensures AfterTemp(h.slots, Next(h), Plants(h)) == h.slots
  {
    TempRestoresIff(h.slots, Next(h), Plants(h));
    NeatSlot(h, Next(h));
  }

  /** Setting keeps the slots injective exactly when the address is new. */
  lemma SetNeatIff(h: Hw, a: Word)
    requires Inv(h) && Neat(h) && FirstFree(h.slots) < BP_SLOTS
    ensures Neat(SetBp(h, a).0) <==> a !in h.bps
  {
    SetInv(h, a);
    hide SetBp, Inv, Agree;
    var j, h' := FirstFree(h.slots), SetBp(h, a).0;
    assert Holds(h'.slots, j, a);
    assert forall s: nat, b: Word :: s != j ==> (Holds(h'.slots, s, b) <==> Holds(h.slots, s, b));
    assert forall b: Word :: Holds(h'.slots, j, b) <==> b == a;
    assert forall b: Word :: !Holds(h.slots, j, b);
    if a in h.bps {
      var t: nat :| Holds(h.slots, t, a);
      assert Holds(h'.slots, t, a) && t != j;
    } else {
      forall b: Word
        ensures b in h'.bps <==> exists s: nat :: Holds(h'.slots, s, b)
      {
        if b in h.bps {
          var s: nat :| Holds(h.slots, s, b);
          assert Holds(h'.slots, s, b);
        }
      }
    }
  }

  lemma RemoveNeat(h: Hw, a: Word)
    requires Inv(h) && Neat(h)
    ensures Neat(RemoveBp(h, a).0)
  {
    RemoveInv(h, a);
    NeatSlot(h, a);
    hide RemoveBp, Inv, Agree;
    var j, h' := SlotOf(h.slots, a), RemoveBp(h, a).0;
    assert forall s: nat, b: Word :: Holds(h'.slots, s, b) <==> Holds(h.slots, s, b) && s != j;
    assert j < |h.slots| ==> Holds(h.slots, j, a);
    forall b: Word
      ensures b in h'.bps <==> exists s: nat :: Holds(h'.slots, s, b)
    {
      if b in h'.bps {
        var s: nat :| Holds(h.slots, s, b);
        assert Holds(h'.slots, s, b);
      }
    }
  }

  // ---------- the pool across finish

  /** `finish` steps over a breakpoint whose next instruction is the return address, as
      in a recursive call, with a slot to spare: the temporary breakpoint of the step and
      the one of `finish` then share their address. */
  predicate Collides(h: Hw, ret: Word)
    requires Shaped(h)
  {
    && h.at.Some? && Next(h) == ret && ret !in h.bps
    && FirstFree(h.slots) < BP_SLOTS && FirstFree(h.slots[FirstFree(h.slots) := Some(ret)]) < BP_SLOTS
  }

  /** `finish` gives the pool back exactly when the two do not collide; when they do, a
      slot that no breakpoint owns stays taken by the return address. */
  lemma FinishRestoresIff(h: Hw, ret: Word)
    requires Shaped(h) && Neat(h)
    ensures SlotsAfterFinish(h, ret) == h.slots <==> !Collides(h, ret)
    ensures Collides(h, ret) ==>
      SlotsAfterFinish(h, ret) == h.slots[FirstFree(h.slots[FirstFree(h.slots) := Some(ret)]) := Some(ret)]
  {
    hide AfterTemp;
    var f := FirstFree(h.slots);
    if f < BP_SLOTS {
      var s1, a := h.slots[f := Some(ret)], Next(h);
      assert s1[f := None] == h.slots;
      NeatSlot(h, ret);
      NeatSlot(h, a);
      if h.at.Some? && a !in h.bps {
        if a == ret {
          CollidingTemp(h.slots, ret);
        } else {
          NotIn(s1, a, h.slots, f, ret);
          TempRestoresIff(s1, a, true);
        }
      } else if h.at.Some? {
        TempRestoresIff(s1, a, false);
      }
    }
  }

  lemma CollidingTemp(slots: seq<Option<Word>>, ret: Word)
    requires |slots| == BP_SLOTS && FirstFree(slots) < BP_SLOTS && SlotOf(slots, ret) == BP_SLOTS
    ensures var f := FirstFree(slots);
      var s1 := slots[f := Some(ret)];
      var j := FirstFree(s1);
      if j < BP_SLOTS
      then AfterTemp(s1, ret, true)[f := None] == slots[j := Some(ret)] != slots
      else AfterTemp(s1, ret, true)[f := None] == slots
  {
    var f := FirstFree(slots);
    var s1 := slots[f := Some(ret)];
    var j := FirstFree(s1);
    if j < BP_SLOTS {
      var s2 := s1[j := Some(ret)];
      LowestIs(s2, ret, f);
      assert s2[f := None][f := None] == slots[j := Some(ret)];
      assert slots[j := Some(ret)][j] != slots[j];
    } else {
      assert s1[f := None] == slots;
    }
  }

  lemma LowestIs(s: seq<Option<Word>>, a: Word, i: nat)
    requires Holds(s, i, a) && forall j :: 0 <= j < i ==> s[j] != Some(a)
    ensures SlotOf(s, a) == i
  {
  }

  lemma NotIn(s1: seq<Option<Word>>, a: Word, s: seq<Option<Word>>, f: nat, ret: Word)
    requires f < |s| && s1 == s[f := Some(ret)] && a != ret && SlotOf(s, a) == |s|
    ensures SlotOf(s1, a) == |s1|
  {
  }

  /** A command that keeps the slots neat: no address set twice, no colliding `finish`. */
  predicate Tidy(h: Hw, cmd: HwCmd)
    requires Shaped(h)
  {
    match cmd
    case SetAt(a) => a !in h.bps
    case FinishTo(ret, _, _) => !Collides(h, ret)
    case _ => true
  }

  lemma DoNeat(h: Hw, cmd: HwCmd)
    requires Inv(h) && Usual(cmd) && Neat(h)
    requires Shaped(h) && Tidy(h, cmd)
    ensures Do(h, cmd).alive ==> Neat(Do(h, cmd))
    ensures !cmd.SetAt? && !cmd.RemoveAt? && Do(h, cmd).alive ==> Do(h, cmd).slots == h.slots
  {
    DoAgrees(h, cmd);
    hide Inv, Neat, SetBp, RemoveBp, StepI, Cont, Finish, SetWatch, RemoveWatch, SetSuspended;
    hide SlotsAfterFinish, AfterTemp;
    match cmd
    case SetAt(a) => if FirstFree(h.slots) < BP_SLOTS { SetNeatIff(h, a); } else { NeatSame(h, Do(h, cmd)); }
    case RemoveAt(a) => RemoveNeat(h, a);
    case _ =>
      SlotsStay(h, cmd);
      NeatSame(h, Do(h, cmd));
  }

  lemma NeatSame(h: Hw, h': Hw)
    requires Neat(h)
    ensures h'.slots == h.slots && h'.bps == h.bps ==> Neat(h')
  {
  }

  lemma SlotsStay(h: Hw, cmd: HwCmd)
    requires Shaped(h) && Neat(h) && Tidy(h, cmd) && !cmd.SetAt? && !cmd.RemoveAt?
    ensures SlotsAfter(h, cmd) == h.slots && BpsAfter(h, cmd) == h.bps
  {
    match cmd
    case StepOne(_) => StepKeepsSlots(h);
    case Continue(_, _) => StepKeepsSlots(h);
    case FinishTo(ret, _, _) => FinishRestoresIff(h, ret);
    case _ =>
  }

  ghost predicate TidyRun(h: Hw, cmds: seq<HwCmd>)
    requires Shaped(h)
    decreases |cmds|
  {
    cmds == [] || !h.alive || (Usual(cmds[0]) && Tidy(h, cmds[0]) && TidyRun(Do(h, cmds[0]), cmds[1..]))
  }

  /** Over any tidy session the slots stay injective and are the breakpoints of the table. */
  lemma {:induction false} RunNeat(h: Hw, cmds: seq<HwCmd>)
    requires Shaped(h) && Inv(h) && Neat(h) && TidyRun(h, cmds)
    ensures DoAll(h, cmds).alive ==> Inv(DoAll(h, cmds)) && Neat(DoAll(h, cmds))
    decreases |cmds|
  {
    hide Inv, Do, Usual, Tidy, Neat;
    if cmds != [] && h.alive {
      DoAgrees(h, cmds[0]);
      DoNeat(h, cmds[0]);
      var h1 := Do(h, cmds[0]);
      if h1.alive {
        RunNeat(h1, cmds[1..]);
      }
    }
  }
}
