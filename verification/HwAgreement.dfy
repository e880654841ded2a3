/** Every thread's debug registers agree with the slot tables, over any run. */
module HwAgreement {
  import opened Words
  import opened Machine
  import opened Bits
  import Engine
  import DebugRegs
  import opened HwSlots

  // ---------- the registers the tables call for

  function Bvr(slots: seq<Option<Word>>): (r: seq<Word>)
    ensures |r| == |slots| && forall i :: 0 <= i < |r| ==> r[i] == slots[i].GetOr(0)
  {
    seq(|slots|, i requires 0 <= i < |slots| => slots[i].GetOr(0))
  }

  function Bcr(slots: seq<Option<Word>>): (r: seq<Word>)
    ensures |r| == |slots| && forall i :: 0 <= i < |r| ==> r[i] == if slots[i].Some? then BCR_ENABLE else 0
  {
    seq(|slots|, i requires 0 <= i < |slots| => if slots[i].Some? then BCR_ENABLE else 0)
  }

  function WatchValues(w: Option<DebugRegs.Watch>): (Word, Word) {
    match w
    case Some(v) => DebugRegs.WcrEncode(v.addr, v.cond, v.len)
    case None => (0, 0)
  }

  function Wvr(watches: seq<Option<DebugRegs.Watch>>): (r: seq<Word>)
    ensures |r| == |watches| && forall i :: 0 <= i < |r| ==> r[i] == WatchValues(watches[i]).0
  {
    seq(|watches|, i requires 0 <= i < |watches| => WatchValues(watches[i]).0)
  }

  function Wcr(watches: seq<Option<DebugRegs.Watch>>): (r: seq<Word>)
    ensures |r| == |watches| && forall i :: 0 <= i < |r| ==> r[i] == WatchValues(watches[i]).1
  {
    seq(|watches|, i requires 0 <= i < |watches| => WatchValues(watches[i]).1)
  }

  function Programmed(slots: seq<Option<Word>>, watches: seq<Option<DebugRegs.Watch>>): (f: File)
    requires |slots| == BP_SLOTS && |watches| == WP_SLOTS
    ensures f.Shaped()
  {
    File(Bvr(slots), Bcr(slots), Wvr(watches), Wcr(watches))
  }

  lemma EditProgrammed(slots: seq<Option<Word>>, watches: seq<Option<DebugRegs.Watch>>, e: Edit)
    requires |slots| == BP_SLOTS && |watches| == WP_SLOTS && InRange(e)
    ensures Edited(Programmed(slots, watches), e) ==
      match e
      case ArmBp(s, a) => Programmed(slots[s := Some(a)], watches)
      case DisarmBp(s) => Programmed(slots[s := None], watches)
      case ArmWp(s, w) => Programmed(slots, watches[s := Some(w)])
      case DisarmWp(s) => Programmed(slots, watches[s := None])
  {
    hide DebugRegs.WcrEncode;
    var f := Programmed(slots, watches);
    match e
    case ArmBp(s, a) =>
      assert f.bvr[s := a] == Bvr(slots[s := Some(a)]) && f.bcr[s := BCR_ENABLE] == Bcr(slots[s := Some(a)]);
    case DisarmBp(s) =>
      assert f.bvr[s := 0] == Bvr(slots[s := None]) && f.bcr[s := 0] == Bcr(slots[s := None]);
    case ArmWp(s, w) =>
      var (wvr, wcr) := DebugRegs.WcrEncode(w.addr, w.cond, w.len);
      assert f.wvr[s := wvr] == Wvr(watches[s := Some(w)]) && f.wcr[s := wcr] == Wcr(watches[s := Some(w)]);
    case DisarmWp(s) =>
      assert f.wvr[s := 0] == Wvr(watches[s := None]) && f.wcr[s := 0] == Wcr(watches[s := None]);
  }

  function Firsts<T>(s: seq<Option<T>>, i: nat): (r: seq<Option<T>>)
    requires i <= |s|
    ensures |r| == |s| && forall j :: 0 <= j < |s| ==> r[j] == if j < i then s[j] else None
  {
    seq(|s|, j requires 0 <= j < |s| => if j < i then s[j] else None)
  }

  lemma ClearIsProgrammed(slots: seq<Option<Word>>, watches: seq<Option<DebugRegs.Watch>>)
    requires |slots| == BP_SLOTS && |watches| == WP_SLOTS
    ensures Clear() == Programmed(Firsts(slots, 0), Firsts(watches, 0))
  {
    var f := Programmed(Firsts(slots, 0), Firsts(watches, 0));
    assert Clear().bvr == f.bvr && Clear().bcr == f.bcr && Clear().wvr == f.wvr && Clear().wcr == f.wcr;
  }

  lemma {:induction false} ArmBpsProgram(slots: seq<Option<Word>>, watches: seq<Option<DebugRegs.Watch>>, i: nat)
    requires |slots| == BP_SLOTS && |watches| == WP_SLOTS && i <= BP_SLOTS
    ensures ArmBps(Clear(), slots, i) == Programmed(Firsts(slots, i), Firsts(watches, 0))
  {
    hide Programmed, Edited, Clear;
    if i == 0 {
      ClearIsProgrammed(slots, watches);
    } else {
      ArmBpsProgram(slots, watches, i - 1);
      if slots[i - 1].Some? {
        EditProgrammed(Firsts(slots, i - 1), Firsts(watches, 0), ArmBp(i - 1, slots[i - 1].value));
        assert Firsts(slots, i - 1)[i - 1 := slots[i - 1]] == Firsts(slots, i);
      } else {
        assert Firsts(slots, i - 1) == Firsts(slots, i);
      }
    }
  }

  lemma {:induction false} ArmWpsProgram(slots: seq<Option<Word>>, watches: seq<Option<DebugRegs.Watch>>, i: nat)
    requires |slots| == BP_SLOTS && |watches| == WP_SLOTS && i <= WP_SLOTS
    ensures ArmWps(Programmed(slots, Firsts(watches, 0)), watches, i) == Programmed(slots, Firsts(watches, i))
  {
    hide Programmed, Edited;
    if i > 0 {
      ArmWpsProgram(slots, watches, i - 1);
      if watches[i - 1].Some? {
        EditProgrammed(slots, Firsts(watches, i - 1), ArmWp(i - 1, watches[i - 1].value));
        assert Firsts(watches, i - 1)[i - 1 := watches[i - 1]] == Firsts(watches, i);
      } else {
        assert Firsts(watches, i - 1) == Firsts(watches, i);
      }
    }
  }

  /** A thread found at a stop ends up with the registers of the others. */
  lemma ApplyPrograms(slots: seq<Option<Word>>, watches: seq<Option<DebugRegs.Watch>>)
    requires |slots| == BP_SLOTS && |watches| == WP_SLOTS
    ensures ApplyExisting(Clear(), slots, watches) == Programmed(slots, watches)
  {
    hide Programmed, ArmBps, ArmWps, Clear;
    ArmBpsProgram(slots, watches, BP_SLOTS);
    assert Firsts(slots, BP_SLOTS) == slots && Firsts(watches, WP_SLOTS) == watches;
    ArmWpsProgram(slots, watches, WP_SLOTS);
  }

  // ---------- agreement

  /** A live session: the threads are those of the kernel, each with a known PC. */
  ghost predicate Live(h: Hw) {
    && h.alive && Shaped(h) && h.current < |h.threads|
    && (forall i, j :: 0 <= i < j < |h.threads| ==> h.threads[i].tid != h.threads[j].tid)
    && (forall t :: t in h.files <==> t in Tids(h.threads))
    && (forall t :: t in h.files ==> t in h.pcs)
  }

  /** `slots` without slot `i`; all of them for `i == BP_SLOTS`. */
  function Off(slots: seq<Option<Word>>, i: nat): seq<Option<Word>> {
    if i < |slots| then slots[i := None] else slots
  }

  ghost predicate FileFits(f: File, slots: seq<Option<Word>>, watches: seq<Option<DebugRegs.Watch>>, i: nat)
    requires |slots| == BP_SLOTS && |watches| == WP_SLOTS
  {
    f == Programmed(slots, watches) || f == Programmed(Off(slots, i), watches)
  }

  /** The registers are those of the tables, except that threads may have slot `i` off. */
  ghost predicate Fits(h: Hw, i: nat) {
    Live(h) && forall t :: t in h.files ==> FileFits(h.files[t], h.slots, h.watches, i)
  }

  ghost predicate Agree(h: Hw) {
    Live(h) && forall t :: t in h.files ==> h.files[t] == Programmed(h.slots, h.watches)
  }

  lemma AgreeIsFits(h: Hw)
    ensures Agree(h) <==> Fits(h, BP_SLOTS)
  {
  }

  lemma FirstTid(threads: seq<Thread>)
    requires threads != []
    requires forall i, j :: 0 <= i < j < |threads| ==> threads[i].tid != threads[j].tid
    ensures threads[0].tid !in Tids(threads[1..])
    ensures forall t :: t in Tids(threads) <==> t == threads[0].tid || t in Tids(threads[1..])
  {
    assert Tids(threads) == [threads[0].tid] + Tids(threads[1..]);
  }

  lemma {:induction false} EditAllTotal(files: map<Tid, File>, threads: seq<Thread>, e: Edit)
    requires InRange(e) && forall t :: t in files ==> files[t].Shaped()
    requires forall i, j :: 0 <= i < j < |threads| ==> threads[i].tid != threads[j].tid
    requires forall i :: 0 <= i < |threads| ==> threads[i].tid in files
    ensures var (files', ok) := EditAll(true, files, threads, e);
      && ok && files'.Keys == files.Keys
      && forall t :: t in files ==> files'[t] == if t in Tids(threads) then Edited(files[t], e) else files[t]
    decreases |threads|
  {
    if threads != [] {
      var first, rest := threads[0].tid, threads[1..];
      FirstTid(threads);
      hide Edited, Tids, InRange;
      EditAllTotal(files[first := Edited(files[first], e)], rest, e);
    }
  }

  /** On a live session an edit reaches every thread. */
  lemma EditReachesAll(h: Hw, e: Edit)
    requires Live(h) && InRange(e)
    ensures var (h', ok) := EditThreads(h, e);
      && ok && h' == h.(files := h'.files) && Live(h')
      && h'.files.Keys == h.files.Keys && forall t :: t in h.files ==> h'.files[t] == Edited(h.files[t], e)
  {
    hide Edited;
    forall i | 0 <= i < |h.threads|
      ensures h.threads[i].tid in h.files
    {
      assert Tids(h.threads)[i] == h.threads[i].tid;
    }
    EditAllTotal(h.files, h.threads, e);
  }

  // ---------- breakpoints and watchpoints

  /** Editing slot `j` of both forms a register file may have. */
  lemma EditFits(f: File, slots: seq<Option<Word>>, watches: seq<Option<DebugRegs.Watch>>, i: nat, e: Edit)
    requires |slots| == BP_SLOTS && |watches| == WP_SLOTS && FileFits(f, slots, watches, i)
    requires InRange(e) && (e.ArmBp? || e.DisarmBp?) && e.slot != i
    ensures FileFits(Edited(f, e), slots[e.slot := if e.ArmBp? then Some(e.addr) else None], watches, i)
  {
    hide Edited, Programmed;
    EditProgrammed(slots, watches, e);
    EditProgrammed(Off(slots, i), watches, e);
    var v := if e.ArmBp? then Some(e.addr) else None;
    assert Off(slots, i)[e.slot := v] == Off(slots[e.slot := v], i);
  }

  /** Setting takes the first free slot; only an exhausted pool refuses. */
  lemma SetFits(h: Hw, i: nat, a: Word)
    requires Fits(h, i) && (i < BP_SLOTS ==> h.slots[i].Some?)
    ensures var (h', ok) := SetBp(h, a);
      var j := FirstFree(h.slots);
      && Fits(h', i) && (ok <==> j < BP_SLOTS)
      && h' == (if ok then h.(files := h'.files, slots := h.slots[j := Some(a)], bps := h.bps + {a}) else h)
      && (!ok <==> |h.slots| == 16 && forall k :: 0 <= k < 16 ==> h.slots[k].Some?)
  {
    var j := FirstFree(h.slots);
    if j < BP_SLOTS {
      hide Edited, FileFits;
      var h1 := Alloc(h, a).0;
      assert Live(h1);
      EditReachesAll(h1, ArmBp(j, a));
      forall t | t in h.files
        ensures FileFits(Edited(h.files[t], ArmBp(j, a)), h1.slots, h.watches, i)
      {
        EditFits(h.files[t], h.slots, h.watches, i, ArmBp(j, a));
      }
    }
  }

  /** Removing frees the first slot with the address. */
  lemma RemoveFits(h: Hw, i: nat, a: Word)
    requires Fits(h, i) && (i < BP_SLOTS ==> h.slots[i].Some? && h.slots[i] != Some(a))
    ensures var (h', ok) := RemoveBp(h, a);
      && ok && Fits(h', i)
      && h' == h.(files := h'.files, slots := Off(h.slots, SlotOf(h.slots, a)), bps := h.bps - {a},
                  at := if h.at == Some(a) then None else h.at)
  {
    var j := SlotOf(h.slots, a);
    hide Edited, FileFits, EditAll;
    if j < BP_SLOTS {
      EditReachesAll(h, DisarmBp(j));
      forall t | t in h.files
        ensures FileFits(Edited(h.files[t], DisarmBp(j)), h.slots[j := None], h.watches, i)
      {
        EditFits(h.files[t], h.slots, h.watches, i, DisarmBp(j));
      }
    }
  }

  /** An edit of a watchpoint slot together with its table entry. */
  lemma WatchEditAgrees(h: Hw, e: Edit)
    requires Agree(h) && InRange(e) && (e.ArmWp? || e.DisarmWp?)
    ensures var (h1, ok) := EditThreads(h, e);
      && ok && h1 == h.(files := h1.files)
      && Agree(h1.(watches := h.watches[e.slot := if e.ArmWp? then Some(e.watch) else None]))
  {
    hide Edited, Programmed;
    EditReachesAll(h, e);
    EditProgrammed(h.slots, h.watches, e);
  }

  /** All four slots hold other addresses. */
  predicate OthersHoldAll(watches: seq<Option<DebugRegs.Watch>>, a: Word) {
    |watches| == 4 && forall j :: 0 <= j < 4 ==> watches[j].Some? && watches[j].value.addr != a
  }

  lemma NoWatchSlot(watches: seq<Option<DebugRegs.Watch>>, a: Word)
    requires |watches| == 4
    ensures WatchSlotOf(watches, a) == 4 && FirstFree(watches) == 4 <==> OthersHoldAll(watches, a)
  {
  }

  lemma SetWatchAgrees(h: Hw, w: DebugRegs.Watch)
    requires Agree(h)
    ensures var (h', slot) := SetWatch(h, w);
      && Agree(h') && h'.slots == h.slots && h'.bps == h.bps && h'.at == h.at
      && (slot.Some? ==>
            slot.value < 4 && h'.watches[slot.value].Some? && h'.watches[slot.value].value.addr == w.addr)
      && (slot.None? <==> h' == h && OthersHoldAll(h.watches, w.addr))
  {
    NoWatchSlot(h.watches, w.addr);
    hide OthersHoldAll;
    var i := FirstFree(h.watches);
    if WatchSlotOf(h.watches, w.addr) == WP_SLOTS && i < WP_SLOTS {
      hide Agree, EditThreads, WatchSlotOf, FirstFree;
      WatchEditAgrees(h, ArmWp(i, w));
    }
  }

  lemma RemoveWatchAgrees(h: Hw, i: nat)
    requires Agree(h)
    ensures var (h', ok) := RemoveWatch(h, i);
      && Agree(h') && h'.slots == h.slots && h'.bps == h.bps && h'.at == h.at
      && (ok <==> i < 4) && (ok ==> h'.watches == h.watches[i := None])
  {
    if i < WP_SLOTS {
      hide Agree, EditThreads;
      WatchEditAgrees(h, DisarmWp(i));
    }
  }

  // ---------- threads come and go

  /** What a stop delivers: each thread once, at least one, each with a PC. */
  ghost predicate Sound(env: HwEnv) {
    && env.listing != []
    && (forall i, j :: 0 <= i < j < |env.listing| ==> env.listing[i] != env.listing[j])
    && (forall t :: t in env.listing ==> t in env.pcs)
  }

  /** A refresh keeps the selected thread and every thread's suspended flag, by id. */
  lemma RefreshKeeps(h: Hw, listing: seq<Tid>)
    requires Shaped(h) && h.current < |h.threads|
    ensures var h' := Refresh(h, listing);
      && Tids(h'.threads) == listing
      && (h.threads[h.current].tid in listing ==>
            h'.current < |h'.threads| && h'.threads[h'.current].tid == h.threads[h.current].tid)
      && (h.threads[h.current].tid !in listing ==> h'.current == 0)
  {
  }

  lemma RefreshKeepsFlags(h: Hw, listing: seq<Tid>, i: nat, j: nat)
    requires Shaped(h) && i < |h.threads| && j < |listing| && h.threads[i].tid == listing[j]
    requires forall k, l :: 0 <= k < l < |h.threads| ==> h.threads[k].tid != h.threads[l].tid
    ensures Refresh(h, listing).threads[j].suspended == h.threads[i].suspended
  {
    assert Tids(h.threads)[i] == listing[j];
    var k := Engine.IndexOf(Tids(h.threads), listing[j]);
    assert k < |h.threads| && h.threads[k].tid == h.threads[i].tid;
    assert k == i;
  }

  lemma ResumeFits(h: Hw, i: nat, env: HwEnv)
    requires Fits(h, i) && env.event.StopEvent? && Sound(env)
    ensures var h' := Resume(h, env);
      && Fits(h', i)
      && h' == h.(files := h'.files, pcs := h'.pcs, threads := h'.threads, current := h'.current, last := h'.last)
      && h'.last.value.Stopped?
  {
    hide Programmed, ApplyExisting, Clear, SuspendedFlag;
    var h0 := h.(files := Survive(h.files, env.listing), pcs := env.pcs);
    ApplyPrograms(h.slots, h.watches);
    var h' := Refresh(h0, env.listing);
    forall t | t in h'.files
      ensures FileFits(h'.files[t], h.slots, h.watches, i)
    {
    }
    forall k, l | 0 <= k < l < |h'.threads|
      ensures h'.threads[k].tid != h'.threads[l].tid
    {
      assert Tids(h'.threads)[k] == env.listing[k] && Tids(h'.threads)[l] == env.listing[l];
    }
  }

  /** The control value of a breakpoint: enabled (bit 0), in user mode (bits 2:1 are 10), on
      all four bytes of the instruction (bits 8:5), and nothing else. */
  lemma BcrEnables(i: nat)
    requires i < 64
    ensures BitAt(BCR_ENABLE, i) == if i == 0 || i == 2 || 5 <= i <= 8 then 1 else 0
  {
    assert BitAt(BCR_ENABLE, 0) == 1 && BitAt(BCR_ENABLE, 1) == 0 && BitAt(BCR_ENABLE, 2) == 1;
    assert BitAt(BCR_ENABLE, 3) == 0 && BitAt(BCR_ENABLE, 4) == 0 && BitAt(BCR_ENABLE, 5) == 1;
    assert BitAt(BCR_ENABLE, 6) == 1 && BitAt(BCR_ENABLE, 7) == 1 && BitAt(BCR_ENABLE, 8) == 1;
    if i >= 9 {
      assert Pow2(9) == 512;
      HighBits(BCR_ENABLE, 9, i);
    }
  }
}
