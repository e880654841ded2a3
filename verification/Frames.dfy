/** Stack frames on x86_64: code with the standard prologue, the return address the
    debugger guesses from the bytes at the PC, and the walk along saved frame pointers. */
module Frames {
  import opened Words
  import opened Machine
  import opened Engine
  import opened Transparency

  // ---------- words in memory

  function WordAt(mem: Memory, a: Word): Word
    requires RangeMapped(mem, a, 8)
  {
    WordFromLe(Slice(mem, a, 8))
  }

  function ToLe(v: nat, n: nat): (b: seq<Byte>)
    ensures |b| == n
  {
    if n == 0 then [] else [v % 256] + ToLe(v / 256, n - 1)
  }

  lemma {:induction false} LeRoundTrip(v: nat, n: nat)
    requires v < Pow256(n)
    ensures FromLe(ToLe(v, n)) == v
  {
    if n > 0 {
      LeRoundTrip(v / 256, n - 1);
      assert ToLe(v, n)[1..] == ToLe(v / 256, n - 1);
    }
  }

  function StoreWord(mem: Memory, a: Word, v: Word): (m: Memory)
    requires RangeMapped(mem, a, 8)
    ensures m.Keys == mem.Keys
  {
    Overwrite(mem, a, ToLe(v, 8))
  }

  lemma StoreReads(mem: Memory, a: Word, v: Word)
    requires RangeMapped(mem, a, 8)
    ensures RangeMapped(StoreWord(mem, a, v), a, 8) && WordAt(StoreWord(mem, a, v), a) == v
  {
    assert Pow256(8) == WORD;
    LeRoundTrip(v, 8);
    assert Slice(StoreWord(mem, a, v), a, 8) == ToLe(v, 8);
  }

  /** Memory that agrees on eight bytes agrees on the word. */
  lemma SameWord(mem: Memory, mem': Memory, a: Word)
    requires RangeMapped(mem, a, 8) && mem'.Keys == mem.Keys
    requires forall x: Word :: a <= x < a + 8 ==> mem'[x] == mem[x]
    ensures RangeMapped(mem', a, 8) && WordAt(mem', a) == WordAt(mem, a)
  {
    assert Slice(mem', a, 8) == Slice(mem, a, 8);
  }

  lemma StoreKeeps(mem: Memory, a: Word, v: Word, b: Word)
    requires RangeMapped(mem, a, 8) && RangeMapped(mem, b, 8) && (b + 8 <= a || a + 8 <= b)
    ensures RangeMapped(StoreWord(mem, a, v), b, 8) && WordAt(StoreWord(mem, a, v), b) == WordAt(mem, b)
  {
    SameWord(mem, StoreWord(mem, a, v), b);
  }

  // ---------- the frames of a run

  /** A call in progress: where its saved frame pointer lies, and where it returns to. */
  datatype Frame = Frame(base: Word, ret: Word)

  /** About to push rbp, about to move rsp to rbp, in the body, about to return. */
  datatype Phase = Entry | Saved | Body | Popped

  /** `frames` is the ghost call stack, innermost first. */
  datatype Stack = Stack(mem: Memory, rsp: Word, rbp: Word, phase: Phase, frames: seq<Frame>)

  /** What the frame saved: the next outer frame pointer, zero in the outermost frame. */
  function Outer(frames: seq<Frame>, i: nat): Word
    requires i < |frames|
  {
    if i + 1 < |frames| then frames[i + 1].base else 0
  }

  predicate InPlace(mem: Memory, frames: seq<Frame>, i: nat)
    requires i < |frames|
  {
    var f := frames[i];
    && RangeMapped(mem, f.base, 16)
    && RangeMapped(mem, f.base, 8) && WordAt(mem, f.base) == Outer(frames, i)
    && RangeMapped(mem, f.base + 8, 8) && WordAt(mem, f.base + 8) == f.ret
    && (i + 1 < |frames| ==> f.base + 16 <= frames[i + 1].base)
  }

  ghost predicate Linked(mem: Memory, frames: seq<Frame>) {
    forall i: nat :: i < |frames| ==> InPlace(mem, frames, i)
  }

  /** rsp points at the return address of the innermost frame; rbp is its caller's. */
  ghost predicate AtReturnSlot(s: Stack) {
    && |s.frames| >= 2 && Linked(s.mem, s.frames[1..])
    && s.rbp == s.frames[1].base && s.rsp + 8 <= s.rbp
    && s.rsp == s.frames[0].base + 8
    && RangeMapped(s.mem, s.frames[0].base, 16) && RangeMapped(s.mem, s.rsp, 8)
    && WordAt(s.mem, s.rsp) == s.frames[0].ret
  }

  ghost predicate Framed(s: Stack) {
    match s.phase
    case Entry => AtReturnSlot(s)
    case Popped => AtReturnSlot(s)
    case Saved => |s.frames| >= 2 && Linked(s.mem, s.frames) && s.rbp == s.frames[1].base && s.rsp == s.frames[0].base
    case Body => s.frames != [] && Linked(s.mem, s.frames) && s.rbp == s.frames[0].base && s.rsp <= s.rbp
  }

  // ---------- the instructions

  datatype Instr = Call(ret: Word) | PushRbp | MovRbpRsp | Work(rsp: Word, stores: Memory) | PopRbp | Ret

  /** The two words every frame keeps. */
  predicate Kept(frames: seq<Frame>, a: Word) {
    exists i: nat :: i < |frames| && InFrame(frames[i], a)
  }

  predicate InFrame(f: Frame, a: Word) {
    f.base <= a < f.base + 16
  }

  /** The body may move rsp below rbp and store anywhere but over the frames' own words. */
  ghost predicate Allowed(s: Stack, e: Instr) {
    match e
    case Call(_) => s.phase == Body && s.rsp >= 16 && RangeMapped(s.mem, s.rsp - 16, 16)
    case PushRbp => s.phase == Entry
    case MovRbpRsp => s.phase == Saved
    case Work(rsp, stores) =>
      && s.phase == Body && rsp <= s.rbp && stores.Keys <= s.mem.Keys
      && forall a :: a in stores ==> !Kept(s.frames, a)
    case PopRbp => s.phase == Body && |s.frames| >= 2 && s.rsp == s.rbp
    case Ret => s.phase == Popped
  }

  ghost function After(s: Stack, e: Instr): Stack
    requires Framed(s) && Allowed(s, e)
  {
    match e
    case Call(ret) =>
      assert RangeMapped(s.mem, s.rsp - 8, 8);
      Stack(StoreWord(s.mem, s.rsp - 8, ret), s.rsp - 8, s.rbp, Entry, [Frame(s.rsp - 16, ret)] + s.frames)
    case PushRbp =>
      assert RangeMapped(s.mem, s.rsp - 8, 8);
      Stack(StoreWord(s.mem, s.rsp - 8, s.rbp), s.rsp - 8, s.rbp, Saved, s.frames)
    case MovRbpRsp => s.(rbp := s.rsp, phase := Body)
    case Work(rsp, stores) => s.(mem := s.mem + stores, rsp := rsp)
    case PopRbp =>
      assert InPlace(s.mem, s.frames, 0);
      s.(rbp := WordAt(s.mem, s.rsp), rsp := s.rsp + 8, phase := Popped)
    case Ret => s.(rsp := s.rsp + 8, phase := Body, frames := s.frames[1..])
  }

  lemma {:induction false} BasesGrow(mem: Memory, frames: seq<Frame>, i: nat)
    requires Linked(mem, frames) && i < |frames|
    ensures frames[0].base <= frames[i].base
  {
    if i > 0 {
      BasesGrow(mem, frames, i - 1);
      assert InPlace(mem, frames, i - 1);
    }
  }

  /** Stores below all frames leave them in place. */
  lemma StoreKeepsFrames(mem: Memory, a: Word, v: Word, frames: seq<Frame>)
    requires Linked(mem, frames) && RangeMapped(mem, a, 8) && (frames != [] ==> a + 8 <= frames[0].base)
    ensures Linked(StoreWord(mem, a, v), frames)
  {
    forall i: nat | i < |frames|
      ensures InPlace(StoreWord(mem, a, v), frames, i)
    {
      assert InPlace(mem, frames, i);
      BasesGrow(mem, frames, i);
      StoreKeeps(mem, a, v, frames[i].base);
      StoreKeeps(mem, a, v, frames[i].base + 8);
    }
  }

  lemma WorkKeepsFrames(mem: Memory, stores: Memory, frames: seq<Frame>)
    requires Linked(mem, frames) && stores.Keys <= mem.Keys && forall a :: a in stores ==> !Kept(frames, a)
    ensures Linked(mem + stores, frames)
  {
    forall i: nat | i < |frames|
      ensures InPlace(mem + stores, frames, i)
    {
      assert InPlace(mem, frames, i);
      assert forall x: Word :: InFrame(frames[i], x) ==> x !in stores;
      assert forall x: Word :: frames[i].base <= x < frames[i].base + 16 ==> InFrame(frames[i], x);
      assert (mem + stores).Keys == mem.Keys;
      SameWord(mem, mem + stores, frames[i].base);
      SameWord(mem, mem + stores, frames[i].base + 8);
    }
  }

  /** A frame and those around it, taken together or apart. */
  lemma LinkedCons(mem: Memory, frames: seq<Frame>)
    requires frames != []
    ensures Linked(mem, frames) <==> InPlace(mem, frames, 0) && Linked(mem, frames[1..])
  {
    forall i: nat | i < |frames| - 1
      ensures InPlace(mem, frames[1..], i) <==> InPlace(mem, frames, i + 1)
    {
    }
    if Linked(mem, frames) {
      forall i: nat | i < |frames| - 1
        ensures InPlace(mem, frames[1..], i)
      {
        assert InPlace(mem, frames, i + 1);
      }
    }
    if InPlace(mem, frames, 0) && Linked(mem, frames[1..]) {
      forall i: nat | i < |frames|
        ensures InPlace(mem, frames, i)
      {
        if i > 0 {
          assert InPlace(mem, frames[1..], i - 1);
        }
      }
    }
  }

  lemma CallFramed(s: Stack, ret: Word)
    requires Framed(s) && Allowed(s, Call(ret))
    ensures Framed(After(s, Call(ret)))
  {
    StoreKeepsFrames(s.mem, s.rsp - 8, ret, s.frames);
    StoreReads(s.mem, s.rsp - 8, ret);
    var s' := After(s, Call(ret));
    assert s'.frames[1..] == s.frames;
    hide StoreWord, WordAt, InPlace;
  }

  lemma PushInPlace(s: Stack)
    requires AtReturnSlot(s)
    ensures RangeMapped(s.mem, s.rsp - 8, 8) && InPlace(StoreWord(s.mem, s.rsp - 8, s.rbp), s.frames, 0)
  {
    assert RangeMapped(s.mem, s.rsp - 8, 8);
    StoreReads(s.mem, s.rsp - 8, s.rbp);
    StoreKeeps(s.mem, s.rsp - 8, s.rbp, s.rsp);
  }

  lemma PushFramed(s: Stack)
    requires Framed(s) && Allowed(s, PushRbp)
    ensures Framed(After(s, PushRbp))
  {
    hide InPlace, WordAt;
    PushInPlace(s);
    StoreKeepsFrames(s.mem, s.rsp - 8, s.rbp, s.frames[1..]);
    LinkedCons(StoreWord(s.mem, s.rsp - 8, s.rbp), s.frames);
  }

  /** Every instruction keeps the frames. */
  lemma StepFramed(s: Stack, e: Instr)
    requires Framed(s) && Allowed(s, e)
    ensures Framed(After(s, e))
  {
    match e
    case Call(ret) => CallFramed(s, ret);
    case PushRbp => PushFramed(s);
    case MovRbpRsp =>
    case Work(rsp, stores) => WorkKeepsFrames(s.mem, stores, s.frames);
    case PopRbp =>
      LinkedCons(s.mem, s.frames);
    case Ret =>
  }

  ghost predicate AllAllowed(s: Stack, es: seq<Instr>)
    requires Framed(s)
    decreases |es|
  {
    es == [] || (Allowed(s, es[0]) && (StepFramed(s, es[0]); AllAllowed(After(s, es[0]), es[1..])))
  }

  ghost function AfterAll(s: Stack, es: seq<Instr>): (s': Stack)
    requires Framed(s) && AllAllowed(s, es)
    ensures Framed(s')
    decreases |es|
  {
    if es == [] then s
    else
      StepFramed(s, es[0]);
      AfterAll(After(s, es[0]), es[1..])
  }

  // ---------- the debugger's guess

  /** The stopped session shows this stack. */
  ghost predicate Shows(d: Dbg, s: Stack) {
    && Consistent(d) && CurrentRegs(d).Some? && View(d).mem == s.mem
    && CurrentRegs(d).value.rsp == s.rsp && CurrentRegs(d).value.rbp == s.rbp
  }

  /** The bytes at the PC (patches hidden) are those of the phase: only a prologue starts
      with `push rbp` or reads `mov rbp, rsp`. */
  ghost predicate CodeShows(d: Dbg, phase: Phase)
    requires CurrentRegs(d).Some?
  {
    var insn := ReadMem(d, CurrentRegs(d).value.pc, 3).GetOr([]);
    match phase
    case Entry => |insn| == 3 && insn[0] == 0x55
    case Saved => insn == [0x48, 0x89, 0xE5]
    case _ => (|insn| == 0 || insn[0] != 0x55) && insn != [0x48, 0x89, 0xE5]
  }

  lemma ReadsWord(d: Dbg, s: Stack, a: Word)
    requires Shows(d, s) && RangeMapped(s.mem, a, 8)
    ensures ReadWord(d, a) == Some(WordAt(s.mem, a))
  {
    ReadShowsView(d, a, 8);
  }

  /** In every phase before `pop rbp` the guess is the innermost return address. */
  lemma ReturnAddressIsTop(d: Dbg, s: Stack)
    requires Framed(s) && Shows(d, s) && CodeShows(d, s.phase) && s.phase != Popped
    ensures ReturnAddress(d) == Some(s.frames[0].ret)
  {
    hide ReadMem, ReadWord, View, Consistent, WordAt;
    if s.phase == Entry {
      ReadsWord(d, s, s.rsp);
    } else {
      assert InPlace(s.mem, s.frames, 0);
      PlusIs(s.frames[0].base);
      ReadsWord(d, s, s.frames[0].base + 8);
    }
  }

  /** So over any run of framed code, at any call depth, `finish` aims right. */
  lemma ReturnAddressOverRuns(s: Stack, es: seq<Instr>, d: Dbg)
    requires Framed(s) && AllAllowed(s, es) && Shows(d, AfterAll(s, es))
    requires CodeShows(d, AfterAll(s, es).phase) && AfterAll(s, es).phase != Popped
    ensures AfterAll(s, es).frames != [] && ReturnAddress(d) == Some(AfterAll(s, es).frames[0].ret)
  {
    ReturnAddressIsTop(d, AfterAll(s, es));
  }

  lemma PlusIs(a: Word)
    ensures a + 8 < WORD ==> Plus(a, 8) == a + 8
  {
  }

  /** Once rbp is popped it is the caller's return address instead: the innermost one
      exactly where the two are equal. */
  lemma ReturnAddressAtRet(d: Dbg, s: Stack)
    requires Framed(s) && Shows(d, s) && CodeShows(d, s.phase) && s.phase == Popped
    ensures ReturnAddress(d) == Some(s.frames[1].ret)
    ensures ReturnAddress(d) == Some(s.frames[0].ret) <==> s.frames[0].ret == s.frames[1].ret
  {
    hide ReadMem, ReadWord, View, Consistent, WordAt;
    LinkedHead(s);
    PlusIs(s.rbp);
    ReadsWord(d, s, s.rbp + 8);
  }

  /** Called at 110 by a function itself called at 220, stopped at its `ret` at 50. */
  function RetByte(a: Word): Byte {
    if a == 50 then 0xC3 else if a == 1008 then 111 else if a == 1024 then 221 else 0
  }

  function RetMemory(): Memory {
    map a: Word | 50 <= a < 53 || 1000 <= a < 1032 :: RetByte(a)
  }

  function RetStack(): Stack {
    Stack(RetMemory(), 1008, 1016, Popped, [Frame(1000, 111), Frame(1016, 221)])
  }

  function StoppedAtRet(): Dbg {
    Dbg(true, State(RetMemory(), map[1 := Regs(50, 0, 0, 0, 1008, 1016, [])], {}), map[], None, [1], 0, None)
  }

  lemma RetWords()
    ensures var mem := RetMemory();
      && RangeMapped(mem, 1000, 16) && RangeMapped(mem, 1016, 16)
      && RangeMapped(mem, 1008, 8) && WordAt(mem, 1008) == 111
      && RangeMapped(mem, 1016, 8) && WordAt(mem, 1016) == 0
      && RangeMapped(mem, 1024, 8) && WordAt(mem, 1024) == 221
  {
    var mem := RetMemory();
    SmallWord(Slice(mem, 1008, 8));
    SmallWord(Slice(mem, 1016, 8));
    SmallWord(Slice(mem, 1024, 8));
  }

  lemma RetFramed()
    ensures Framed(RetStack())
  {
    RetWords();
    hide RetMemory, WordAt, RangeMapped;
    assert InPlace(RetMemory(), RetStack().frames[1..], 0);
  }

  /** `finish` there would stop at 221, in the caller's caller. */
  lemma GuessAtRet()
    ensures ReturnAddress(StoppedAtRet()) == Some(221) && RetStack().frames[0].ret == 111
  {
    var d := StoppedAtRet();
    assert ListsExactly([1], d.target.threads);
    assert Engine.Saved(d.bps) == map[];
    assert View(d).mem == RetMemory();
    ReadShowsView(d, 50, 3);
    assert ReadMem(d, 50, 3).GetOr([])[0] == 0xC3;
    RetFramed();
    hide RetMemory, ReadMem, ReturnAddress, Framed, View;
    ReturnAddressAtRet(d, RetStack());
  }

  lemma LinkedHead(s: Stack)
    requires AtReturnSlot(s)
    ensures s.rbp + 16 <= WORD && RangeMapped(s.mem, s.rbp + 8, 8) && WordAt(s.mem, s.rbp + 8) == s.frames[1].ret
  {
    assert InPlace(s.mem, s.frames[1..], 0);
  }

  // ---------- the walk

  const MAX_FRAMES: nat := 64

  /** Saved frame pointer and return address at `fp`, unless the walk ends there. */
  function NextFrame(d: Dbg, fp: Word): Option<(Word, Word)> {
    if fp == 0 then None
    else
      match ReadMem(d, fp, 16)
      case None => None
      case Some(buf) =>
        if |buf| < 16 then None
        else
          var saved, ret := WordFromLe(buf[..8]), WordFromLe(buf[8..16]);
          if ret == 0 || saved <= fp then None else Some((saved, ret))
  }

  /** The walk without the cap: the frame pointer only grows, so it ends. */
  function WalkAll(d: Dbg, main: set<Word>, pc: Word, fp: Word): seq<Word>
    decreases WORD - fp
  {
    if pc in main then [pc]
    else
      match NextFrame(d, fp)
      case None => [pc]
      case Some(next) => [pc] + WalkAll(d, main, next.1, next.0)
  }

  function Capped(pcs: seq<Word>, n: nat): seq<Word> {
    if |pcs| <= n then pcs else pcs[..n]
  }

  /** `main` stands for the addresses the symbol table places in `main`. */
  method Backtrace(d: Dbg, main: set<Word>) returns (pcs: seq<Word>)
    ensures pcs == match CurrentRegs(d)
                   case None => []
                   case Some(r) => Capped(WalkAll(d, main, r.pc, r.rbp), 64)
  {
    hide NextFrame;
    pcs := [];
    if CurrentRegs(d).None? { return; }
    var pc, fp := CurrentRegs(d).value.pc, CurrentRegs(d).value.rbp;
    ghost var all := WalkAll(d, main, pc, fp);
    for i := 0 to MAX_FRAMES
      invariant |pcs| == i && pcs + WalkAll(d, main, pc, fp) == all
    {
      ghost var rest := WalkAll(d, main, pc, fp)[1..];
      assert WalkAll(d, main, pc, fp) == [pc] + rest && pcs + ([pc] + rest) == (pcs + [pc]) + rest;
      pcs := pcs + [pc];
      if pc in main { return; }
      var next := NextFrame(d, fp);
      if next.None? { return; }
      pc, fp := next.value.1, next.value.0;
    }
  }

  /** The ghost call chain from `pc` outwards, as far as it is shown: it ends in `main`, at
      a zero return address, and before the return address of the outermost frame. */
  function Chain(main: set<Word>, pc: Word, frames: seq<Frame>): seq<Word>
    decreases |frames|
  {
    if pc in main || |frames| < 2 || frames[0].ret == 0 then [pc]
    else [pc] + Chain(main, frames[0].ret, frames[1..])
  }

  lemma NextFrameIs(d: Dbg, s: Stack, frames: seq<Frame>)
    requires Shows(d, s) && frames != [] && InPlace(s.mem, frames, 0) && frames[0].base != 0
    ensures NextFrame(d, frames[0].base) ==
      if |frames| < 2 || frames[0].ret == 0 then None else Some((frames[1].base, frames[0].ret))
  {
    var fp := frames[0].base;
    ReadShowsView(d, fp, 16);
    var buf := Slice(s.mem, fp, 16);
    assert buf[..8] == Slice(s.mem, fp, 8);
    assert buf[8..16] == Slice(s.mem, fp + 8, 8);
  }

  /** On completed frames the walk yields the call chain, in order. */
  lemma {:induction false} WalkIsChain(d: Dbg, s: Stack, main: set<Word>, pc: Word, frames: seq<Frame>)
    requires Shows(d, s) && frames != [] && Linked(s.mem, frames) && frames[0].base != 0
    ensures WalkAll(d, main, pc, frames[0].base) == Chain(main, pc, frames)
    decreases |frames|
  {
    hide NextFrame, Shows;
    assert InPlace(s.mem, frames, 0);
    NextFrameIs(d, s, frames);
    if pc !in main && |frames| >= 2 && frames[0].ret != 0 {
      LinkedCons(s.mem, frames);
      WalkIsChain(d, s, main, frames[0].ret, frames[1..]);
    }
  }

  /** The backtrace of a stop in a function's body is the ghost call chain. */
  lemma BacktraceIsChain(d: Dbg, s: Stack, main: set<Word>)
    requires Framed(s) && s.phase == Body && Shows(d, s) && s.rbp != 0
    ensures var pc := CurrentRegs(d).value.pc;
      WalkAll(d, main, pc, CurrentRegs(d).value.rbp) == Chain(main, pc, s.frames)
  {
    WalkIsChain(d, s, main, CurrentRegs(d).value.pc, s.frames);
  }
}
