/** One thread that frees two blocks through an import stub, an indirect jump: the tracker
    sees the first call only. The stub's target is no candidate, so its breakpoint stays out
    until another breakpoint is reached, and the second call goes through unseen. */
module LeakStub {
  import opened Words
  import opened Machine
  import opened Overlay
  import opened Disasm
  import opened Engine
  import opened Transparency
  import opened Stops
  import opened Session
  import opened Solo
  import opened Defects
  import opened LeakTracking
  import opened LeakHeap
  import opened LeakCalls
  import opened Passes
  import opened SoloPasses
  import opened LeakRuns
  import opened LeakSolo
  import LeakSession

  // ---------- the program

  const JUMP: Byte := 0xFF
  const AGAIN: Byte := 0xE9

  /** `JUMP` goes where `rax` says; `AGAIN` calls the stub at 100 once more, for the block
      in `rsi`, and from there goes to 120. */
  function Next(code: seq<Byte>, r: Regs): Regs {
    if code == [JUMP] then r.(pc := r.rax)
    else if code == [AGAIN] then r.(pc := 100, rax := 120, rdi := r.rsi)
    else r.(pc := Inc(r.pc))
  }

  function StubIsa(): Isa {
    Isa(w => 1, (c, r) => {}, (c: seq<Byte>, r: Regs, m: Memory) => Effect(Some(Next(c, r)), map[], map[]))
  }

  /** The one instruction that is disassembled is the indirect jump. */
  function Stubbed(): Platform {
    Platform(StubIsa(), code => Some(Insn(1, "jmp", None)))
  }

  function Thread(pc: Word, next: Word, block: Word): map<Tid, Regs> {
    map[1 := Regs(pc, next, block, 2000, 0, 0, [])]
  }

  lemma OneByte(mem: Memory, pc: Word)
    ensures Code(StubIsa(), mem, pc) == [Peek(mem, pc)]
  {
    assert Plus(pc, 0) == pc;
  }

  /** A turn of the thread. */
  lemma ThreadStep(mem: Memory, pc: Word, next: Word, block: Word)
    ensures var r := Thread(pc, next, block)[1];
      Step(StubIsa(), State(mem, Thread(pc, next, block), {}), 1)
      == if Peek(mem, pc) == INT3 then State(mem, Thread(Inc(pc), next, block), {1})
         else State(mem, map[1 := Next([Peek(mem, pc)], r)], {})
  {
    OneByte(mem, pc);
    var r := Thread(pc, next, block)[1];
    assert mem + map[] == mem;
    assert map[] + map[1 := Next([Peek(mem, pc)], r)] == map[1 := Next([Peek(mem, pc)], r)];
    assert forall r1: Regs :: Thread(pc, next, block)[1 := r1] == map[1 := r1];
    hide Code, Peek;
  }

  /** The bytes of the program, wherever `int3` stands for 120. */
  predicate Coded(mem: Memory) {
    Peek(mem, 100) == JUMP && Peek(mem, 110) == AGAIN
  }

  lemma ThreeTurns(mem: Memory)
    requires Coded(mem)
    ensures Step(StubIsa(), State(mem, Thread(100, 110, 1000), {}), 1) == State(mem, Thread(110, 110, 1000), {})
    ensures Step(StubIsa(), State(mem, Thread(110, 110, 1000), {}), 1) == State(mem, Thread(100, 120, 2000), {})
    ensures Step(StubIsa(), State(mem, Thread(100, 120, 2000), {}), 1) == State(mem, Thread(120, 120, 2000), {})
  {
    ThreadStep(mem, 100, 110, 1000);
    ThreadStep(mem, 110, 110, 1000);
    ThreadStep(mem, 100, 120, 2000);
    hide StubIsa, Step, Peek;
  }

  // ---------- the session

  function StubMemory(): Memory {
    map[100 := INT3, 101 := NOP, 110 := AGAIN, 120 := INT3]
  }

  function StubTable(): map<Word, Bp> {
    map[100 := Bp(true, [JUMP]), 120 := Bp(true, [NOP])]
  }

  /** Stopped at the stub of `free`, the user's breakpoint at 120. */
  function AtFirstFree(): Dbg {
    Dbg(true, State(StubMemory(), Thread(100, 110, 1000), {}), StubTable(),
        Some(100), [1], 0, Some(Stopped(SIGTRAP, 100)))
  }

  /** The stub's breakpoint is out, and a temporary one is behind the jump. */
  function JumpMemory(): Memory {
    map[100 := JUMP, 101 := INT3, 110 := AGAIN, 120 := INT3]
  }

  function JumpTable(): map<Word, Bp> {
    map[101 := Bp(true, [NOP]), 120 := Bp(true, [NOP])]
  }

  function Jumping(threads: map<Tid, Regs>, trapped: set<Tid>, at: Option<Word>, last: Word): Dbg {
    Dbg(true, State(JumpMemory(), threads, trapped), JumpTable(), at, [1], 0, Some(Stopped(SIGTRAP, last)))
  }

  /** Stopped at the user's breakpoint, both blocks freed. */
  function AtUsers(): Dbg {
    Dbg(true, State(StubMemory(), Thread(120, 120, 2000), {1}), StubTable(),
        Some(120), [1], 0, Some(Stopped(SIGTRAP, 120)))
  }

  function Jumps(): Env {
    Env([1, 1, 1, 1], [1], StopEvent(SIGTRAP))
  }

  function TrapsAgain(): Env {
    Env([1], [1], StopEvent(SIGTRAP))
  }

  lemma OneListed(r: Regs)
    ensures ListsExactly([1], map[1 := r])
  {
    assert 1 in [1];
  }

  lemma StubArmed()
    ensures StubTable().Keys == {100, 120}
    ensures forall a :: a in StubTable() ==>
      |StubTable()[a].saved| == 1 && StubTable()[a].enabled && a in StubMemory() && StubMemory()[a] == INT3
  {
  }

  lemma FirstFreeConsistent()
    ensures Consistent(AtFirstFree())
  {
    StubArmed();
    OneListed(Thread(100, 110, 1000)[1]);
    hide StubMemory, StubTable, ListsExactly;
  }

  lemma JumpTakenOut()
    ensures var d := Disarmed(AtFirstFree().(at := None), 100);
      d == Dbg(true, State(map[100 := JUMP, 101 := NOP, 110 := AGAIN, 120 := INT3], Thread(100, 110, 1000), {}),
               map[120 := Bp(true, [NOP])], None, [1], 0, Some(Stopped(SIGTRAP, 100)))
  {
    assert StubTable() - {100} == map[120 := Bp(true, [NOP])];
    assert StubMemory()[100 := JUMP] == map[100 := JUMP, 101 := NOP, 110 := AGAIN, 120 := INT3];
  }

  lemma JumpCandidates()
    ensures var d := Disarmed(AtFirstFree().(at := None), 100);
      && Candidates(Stubbed(), d, 100) == [101] && CurrentRegs(d).Some? && CurrentRegs(d).value.pc == 100
      && d.target.mem[101 := INT3] == JumpMemory() && d.bps[101 := Bp(true, [NOP])] == JumpTable()
      && 101 in d.target.mem && d.target.mem[101] == NOP && 101 !in d.bps
  {
    var d := Disarmed(AtFirstFree().(at := None), 100);
    JumpTakenOut();
    hide Disarmed, AtFirstFree;
  }

  lemma JumpPlanted()
    ensures SteppingAt(Stubbed(), AtFirstFree()) == Jumping(Thread(100, 110, 1000), {}, None, 100)
    ensures var d := Disarmed(AtFirstFree().(at := None), 100);
      && Candidates(Stubbed(), d, 100) == [101] && Plant(d, [101]).1 == [101] && CurrentRegs(d).Some?
      && CurrentRegs(d).value.pc == 100
  {
    JumpTakenOut();
    JumpCandidates();
    assert [101][1..] == [] && [101] + [] == [101];
    hide Disarmed, JumpMemory, JumpTable, AtFirstFree, Candidates;
  }

  // ---------- the first resume

  lemma Turns()
    ensures [1, 1, 1, 1][1..] == [1, 1, 1] && [1, 1, 1][1..] == [1, 1] && [1, 1][1..] == [1]
    ensures var one: seq<Tid> := [1]; one[1..] == []
  {
  }

  /** From the stub to the next breakpoint, and into it. */
  lemma FourTurns(mem: Memory, saved: Memory)
    requires Coded(mem) && Peek(mem, 120) == INT3 && saved.Keys == {101, 120}
    ensures Run(StubIsa(), State(mem, Thread(100, 110, 1000), {}), [1, 1, 1, 1])
         == State(mem, Thread(121, 120, 2000), {1})
    ensures Effective(StubIsa(), State(mem, Thread(100, 110, 1000), {}), saved, [1, 1, 1, 1]) == [1, 1, 1]
  {
    ThreeTurns(mem);
    ThreadStep(mem, 120, 120, 2000);
    Turns();
    hide StubIsa, Step, Peek;
    LastTurns(mem, saved);
    assert [1] + [1, 1] == [1, 1, 1];
  }

  lemma LastTurns(mem: Memory, saved: Memory)
    requires Coded(mem) && Peek(mem, 120) == INT3 && saved.Keys == {101, 120}
    ensures Run(StubIsa(), State(mem, Thread(110, 110, 1000), {}), [1, 1, 1]) == State(mem, Thread(121, 120, 2000), {1})
    ensures Effective(StubIsa(), State(mem, Thread(110, 110, 1000), {}), saved, [1, 1, 1]) == [1, 1]
  {
    ThreeTurns(mem);
    Turns();
    hide StubIsa, Step, Peek;
    TwoTurnsLeft(mem, saved);
    assert [1] + [1] == [1, 1];
  }

  lemma TwoTurnsLeft(mem: Memory, saved: Memory)
    requires Coded(mem) && Peek(mem, 120) == INT3 && saved.Keys == {101, 120}
    ensures Run(StubIsa(), State(mem, Thread(100, 120, 2000), {}), [1, 1]) == State(mem, Thread(121, 120, 2000), {1})
    ensures Effective(StubIsa(), State(mem, Thread(100, 120, 2000), {}), saved, [1, 1]) == [1]
  {
    ThreeTurns(mem);
    ThreadStep(mem, 120, 120, 2000);
    Turns();
    hide StubIsa, Step, Peek;
    assert Effective(StubIsa(), State(mem, Thread(120, 120, 2000), {}), saved, [1]) == [];
  }

  lemma JumpBytes()
    ensures Coded(JumpMemory()) && Peek(JumpMemory(), 120) == INT3 && Saved(JumpTable()).Keys == {101, 120}
    ensures JumpTable().Keys == {101, 120}
  {
  }

  lemma JumpRuns()
    ensures var d := Jumping(Thread(100, 110, 1000), {}, None, 100);
      && Raw(StubIsa(), d, Jumps()) == State(JumpMemory(), Thread(121, 120, 2000), {1})
      && Executed(StubIsa(), d, Jumps()) == [1, 1, 1]
  {
    var d := Jumping(Thread(100, 110, 1000), {}, None, 100);
    JumpBytes();
    FourTurns(JumpMemory(), Saved(JumpTable()));
    assert Settle(d.target) == State(JumpMemory(), Thread(100, 110, 1000), {});
    hide StubIsa, Run, Effective, JumpMemory, JumpTable, Saved, Thread;
  }

  lemma JumpStops()
    ensures Stint(StubIsa(), Jumping(Thread(100, 110, 1000), {}, None, 100), Jumps())
         == Jumping(Thread(120, 120, 2000), {1}, Some(120), 120)
  {
    JumpRuns();
    hide StubIsa, Run, Executed, Handle, JumpMemory, JumpTable, Settle;
    assert Resume(StubIsa(), Jumping(Thread(100, 110, 1000), {}, None, 100), Jumps())
        == Jumping(Thread(121, 120, 2000), {1}, None, 121);
    JumpHit();
  }

  lemma JumpHit()
    ensures Handle(Jumping(Thread(121, 120, 2000), {1}, None, 121))
         == Jumping(Thread(120, 120, 2000), {1}, Some(120), 120)
  {
    var d := Jumping(Thread(121, 120, 2000), {1}, None, 121);
    assert LooksTrapped(d, 1);
    hide JumpMemory, JumpTable, LooksTrapped;
    assert FirstHit(d, d.threads) == 0;
    assert Rewound(d) == Thread(120, 120, 2000);
  }

  lemma JumpPutBack()
    ensures SetBp(Unplant(Jumping(Thread(120, 120, 2000), {1}, Some(120), 120), [101]), 100) == (AtUsers(), true)
  {
    var d := Jumping(Thread(120, 120, 2000), {1}, Some(120), 120);
    assert [101][1..] == [];
    assert Unplant(d, [101]) == RemoveBp(d, 101).0;
    assert JumpMemory()[101 := NOP][100 := INT3] == StubMemory();
    assert (JumpTable() - {101})[100 := Bp(true, [JUMP])] == StubTable();
    hide Unplant;
  }

  lemma JumpSteppedOver()
    ensures StepOver(Stubbed(), AtFirstFree().(at := None), 100, Jumps()) == (AtUsers(), Done(Stopped(SIGTRAP, 120)))
  {
    FirstFreeConsistent();
    TakeAt(AtFirstFree());
    StepOverUnfolds(Stubbed(), AtFirstFree().(at := None), 100, Jumps());
    JumpPlanted();
    JumpStops();
    JumpPutBack();
    hide Consistent, Disarmed, Plant, Unplant, Resume, Handle, Jumping, AtUsers, AtFirstFree, SetBp, StepOver;
    hide Candidates;
  }

  // ---------- the second resume

  /** The thread stands at the user's breakpoint and runs into it. */
  lemma UsersAgain()
    ensures Stint(StubIsa(), AtUsers(), TrapsAgain()) == AtUsers()
    ensures Executed(StubIsa(), AtUsers(), TrapsAgain()) == []
    ensures Raw(StubIsa(), AtUsers(), TrapsAgain()) == State(StubMemory(), Thread(121, 120, 2000), {1})
  {
    var d := AtUsers();
    StubArmed();
    assert Peek(StubMemory(), 120) == INT3 && 120 in Saved(StubTable());
    TrapTurn(StubIsa(), d.target.mem, d.target.threads, 1);
    TrapExecutes(StubIsa(), Settle(d.target), Saved(d.bps), 1);
    assert Thread(120, 120, 2000)[1 := Thread(121, 120, 2000)[1]] == Thread(121, 120, 2000);
    assert Settle(d.target) == State(StubMemory(), Thread(120, 120, 2000), {});
    hide StubIsa, Run, Effective, Handle, StubMemory, StubTable, Saved;
    assert Resume(StubIsa(), d, TrapsAgain()) == PastUsers();
    UsersHit();
  }

  function PastUsers(): Dbg {
    AtUsers().(target := State(StubMemory(), Thread(121, 120, 2000), {1}), last := Some(Stopped(SIGTRAP, 121)))
  }

  lemma UsersHit()
    ensures Handle(PastUsers()) == AtUsers()
  {
    var d := PastUsers();
    assert LooksTrapped(d, 1);
    hide StubMemory, StubTable, LooksTrapped;
    assert FirstHit(d, d.threads) == 0;
    assert Rewound(d) == Thread(120, 120, 2000);
  }

  lemma StubContinues()
    ensures Cont(Stubbed(), AtFirstFree(), Jumps(), TrapsAgain()) == (AtUsers(), Done(Stopped(SIGTRAP, 120)))
    ensures SteppedOver(Stubbed(), AtFirstFree(), Jumps()) == AtUsers()
  {
    JumpSteppedOver();
    UsersAgain();
    hide StepOver, Resume, Handle;
  }

  // ---------- the conditions of the theorems

  lemma StubDecodes()
    ensures Decodable(StubIsa())
  {
  }

  lemma StubClean(mem: Memory, r: Regs, armed: set<Word>)
    requires r.pc !in armed
    ensures Clean(StubIsa(), State(mem, map[1 := r], {}), armed, 1)
  {
    OneByte(mem, r.pc);
    assert Plus(r.pc, 0) == r.pc;
    hide Code;
  }

  lemma JumpClean(mem: Memory, armed: set<Word>)
    requires Coded(mem) && 100 !in armed && 110 !in armed
    ensures CleanRun(StubIsa(), State(mem, Thread(100, 110, 1000), {}), armed, [1, 1, 1])
  {
    ThreeTurns(mem);
    Turns();
    StubClean(mem, Thread(100, 110, 1000)[1], armed);
    StubClean(mem, Thread(110, 110, 1000)[1], armed);
    StubClean(mem, Thread(100, 120, 2000)[1], armed);
    var u1, u2, u3 := State(mem, Thread(110, 110, 1000), {}), State(mem, Thread(100, 120, 2000), {}),
                      State(mem, Thread(120, 120, 2000), {});
    hide StubIsa, Step, Peek, Clean, Thread;
    assert CleanRun(StubIsa(), u3, armed, []);
    assert CleanRun(StubIsa(), u2, armed, [1]);
    assert CleanRun(StubIsa(), u1, armed, [1, 1]);
  }

  lemma JumpShown()
    ensures Coded(JumpMemory() + Saved(JumpTable()))
  {
  }

  lemma JumpGood()
    ensures GoodStint(StubIsa(), Jumping(Thread(100, 110, 1000), {}, None, 100), Jumps())
  {
    var d := Jumping(Thread(100, 110, 1000), {}, None, 100);
    JumpRuns();
    JumpBytes();
    JumpShown();
    OneListed(Thread(121, 120, 2000)[1]);
    assert View(d) == State(JumpMemory() + Saved(JumpTable()), Thread(100, 110, 1000), {});
    hide StubIsa, Raw, Executed, JumpMemory, JumpTable, Saved, CleanRun, ListsExactly, View, Coded;
    JumpClean(JumpMemory() + Saved(JumpTable()), d.bps.Keys);
  }

  lemma UsersGood()
    ensures GoodStint(StubIsa(), AtUsers(), TrapsAgain())
  {
    UsersAgain();
    StubArmed();
    OneListed(Thread(121, 120, 2000)[1]);
    hide StubIsa, Raw, Executed, StubMemory, StubTable, ListsExactly, View;
  }

  lemma StubStepGood()
    ensures AtFirstFree().at == Some(100) && 100 in AtFirstFree().bps
    ensures GoodStepI(Stubbed(), AtFirstFree(), Jumps())
  {
    JumpPlanted();
    JumpGood();
    assert 100 in StubTable();
    hide GoodStint, Disarmed, Jumping, Plant, Candidates, StubTable, StubIsa, StubMemory, CurrentRegs;
  }

  lemma StubContGood()
    ensures GoodCont(Stubbed(), AtFirstFree(), Jumps(), TrapsAgain())
  {
    hide GoodStint, GoodStepI, SteppedOver, AtUsers, AtFirstFree, StubIsa, Cont, Stint, Executed, Raw;
    StubStepGood();
    StubContinues();
    UsersGood();
  }

  lemma OnlyThatThread()
    ensures AtFirstFree().threads == [1] && Alone(Jumps(), 1) && Alone(TrapsAgain(), 1)
  {
    assert Jumps().sched == Rep(1, 4) && TrapsAgain().sched == Rep(1, 1);
    hide StubMemory, StubTable, Thread;
    RepAlone(1, 4);
    RepAlone(1, 1);
  }

  lemma StubGood()
    ensures OneThread(Stubbed(), AtFirstFree(), 1, Jumps(), TrapsAgain())
  {
    hide GoodCont, AtFirstFree, Alone, Jumps, TrapsAgain, Stubbed;
    StubContGood();
    OnlyThatThread();
  }

  lemma StubActs()
    ensures Consistent(AtFirstFree())
    ensures ContRuns(Stubbed(), AtFirstFree(), Jumps(), TrapsAgain()) == [Ran([1, 1, 1]), Ran([])]
  {
    FirstFreeConsistent();
    StubContinues();
    JumpPlanted();
    JumpRuns();
    UsersAgain();
    assert AtFirstFree().at == Some(100);
    hide Consistent, Executed, SteppedOver, Jumping, AtUsers, AtFirstFree, SteppingAt, ContActs, Stint, Cont, Raw;
    ActsOf(Stubbed(), AtFirstFree(), Jumps(), TrapsAgain());
  }

  // ---------- the two calls

  const BLOCK: AllocInfo := AllocInfo(8, 300)

  /** Two blocks live, with the stub of `free` watched. */
  function WatchingFree(live: map<Word, AllocInfo>): Tracker {
    Tracker(true, live, None, None, None, Some(100), map[])
  }

  function TwoBlocks(): map<Word, AllocInfo> {
    map[1000 := BLOCK, 2000 := BLOCK]
  }

  function HeapOf(blocks: map<Word, AllocInfo>): Heap {
    Heap(map[], blocks, {})
  }

  lemma FreesOne()
    ensures Forget(WatchingFree(TwoBlocks()), 1000) == WatchingFree(map[2000 := BLOCK])
    ensures LeakHeap.After(HeapOf(TwoBlocks()), Free(1000)) == HeapOf(map[2000 := BLOCK])
    ensures LeakHeap.After(HeapOf(map[2000 := BLOCK]), Free(2000)) == HeapOf(map[])
  {
    assert TwoBlocks() - {1000} == map[2000 := BLOCK];
    assert map[2000 := BLOCK] - {2000} == map[];
  }

  lemma FirstFreeHandled()
    ensures OnStop(WatchingFree(TwoBlocks()), AtFirstFree())
         == (WatchingFree(map[2000 := BLOCK]), AtFirstFree(), Some(true))
    ensures Ready(WatchingFree(TwoBlocks()), AtFirstFree())
  {
    FreesOne();
    assert CurrentRegs(AtFirstFree()) == Some(Thread(100, 110, 1000)[1]);
    hide Forget, StubMemory, StubTable, TwoBlocks, ReadWord;
  }

  lemma UsersIsElsewhere()
    ensures OnStop(WatchingFree(map[2000 := BLOCK]), AtUsers())
         == (WatchingFree(map[2000 := BLOCK]), AtUsers(), Some(false))
  {
    assert CurrentRegs(AtUsers()) == Some(Thread(120, 120, 2000)[1]);
    hide StubMemory, StubTable;
  }

  lemma StubInOrder()
    ensures Consistent(AtFirstFree())
    ensures LeakSession.Booked(WatchingFree(TwoBlocks()), AtFirstFree().bps.Keys, {120})
    ensures Tracks(WatchingFree(TwoBlocks()), HeapOf(TwoBlocks()))
  {
    FirstFreeConsistent();
    StubArmed();
    assert Entries(WatchingFree(TwoBlocks())) == [100];
    assert Elems([100]) == {100};
    hide Consistent, StubTable, StubMemory, Entries, Elems, TwoBlocks;
  }

  lemma StubRun()
    ensures var envs := [(Jumps(), TrapsAgain())];
      AutoCont(Stubbed(), WatchingFree(TwoBlocks()), AtFirstFree(), Stopped(SIGTRAP, 100), envs)
         == (WatchingFree(map[2000 := BLOCK]), AtUsers(), Some(Done(Stopped(SIGTRAP, 120))))
    ensures var envs := [(Jumps(), TrapsAgain())];
      HiddenRuns(Stubbed(), WatchingFree(TwoBlocks()), AtFirstFree(), Stopped(SIGTRAP, 100), envs)
         == [Ran([1, 1, 1]), Ran([])]
  {
    FirstFreeHandled();
    StubContinues();
    StubActs();
    UsersIsElsewhere();
    hide OnStop, Cont, Consistent, ContRuns, AtFirstFree, AtUsers, WatchingFree, TwoBlocks;
    assert [(Jumps(), TrapsAgain())][1..] == [];
    assert [Ran([1, 1, 1]), Ran([])] + [] == [Ran([1, 1, 1]), Ran([])];
  }

  lemma NothingAt(mem: Memory, pc: Word, next: Word, block: Word, blocks: map<Word, AllocInfo>)
    ensures Turn(AllocatorOf(WatchingFree(TwoBlocks())), State(mem, Thread(pc, next, block), {}), 1, HeapOf(blocks))
         == if pc == 100 then Some(Free(block)) else None
  {
    assert InFlight(HeapOf(blocks), pc) == {};
    hide TwoBlocks, Above, Top;
  }

  /** The thread frees both blocks. */
  lemma TwoFrees(mem: Memory)
    requires Coded(mem)
    ensures Observe(AllocatorOf(WatchingFree(TwoBlocks())), StubIsa(), State(mem, Thread(100, 110, 1000), {}),
                    [1, 1, 1], HeapOf(TwoBlocks())) == [Free(1000), Free(2000)]
  {
    var c, u1, u2 := AllocatorOf(WatchingFree(TwoBlocks())), State(mem, Thread(110, 110, 1000), {}),
                     State(mem, Thread(100, 120, 2000), {});
    ThreeTurns(mem);
    Turns();
    FreesOne();
    NothingAt(mem, 100, 110, 1000, TwoBlocks());
    NothingAt(mem, 110, 110, 1000, map[2000 := BLOCK]);
    NothingAt(mem, 100, 120, 2000, map[2000 := BLOCK]);
    hide StubIsa, Step, Peek, Turn, Thread, HeapOf, TwoBlocks, LeakHeap.After, WatchingFree, AllocatorOf;
    assert Observe(c, StubIsa(), u2, [1], HeapOf(map[2000 := BLOCK])) == [Free(2000)] + [];
    assert Observe(c, StubIsa(), u1, [1, 1], HeapOf(map[2000 := BLOCK])) == [Free(2000)];
  }

  lemma BothFreed(mem: Memory)
    requires Coded(mem)
    ensures ObserveActs(AllocatorOf(WatchingFree(TwoBlocks())), StubIsa(), State(mem, Thread(100, 110, 1000), {}),
                        [Ran([1, 1, 1]), Ran([])], HeapOf(TwoBlocks())) == [Free(1000), Free(2000)]
  {
    TwoFrees(mem);
    var c, u, h := AllocatorOf(WatchingFree(TwoBlocks())), State(mem, Thread(100, 110, 1000), {}), HeapOf(TwoBlocks());
    hide StubIsa, Run, ObserveActs, HeapBy, Thread, HeapOf, TwoBlocks, WatchingFree, AllocatorOf;
    TwoActs(c, StubIsa(), u, [1, 1, 1], [], h);
  }

  lemma FirstFreeShown()
    ensures View(AtFirstFree()) == State(View(AtFirstFree()).mem, Thread(100, 110, 1000), {})
    ensures Coded(View(AtFirstFree()).mem)
  {
    hide Thread;
  }

  /** The program frees both blocks and its heap is empty; the tracker has seen one call,
      and lists the other block as live. The thread is back at the stub before it reaches
      a breakpoint. */
  lemma FreeMissed()
    ensures Consistent(AtFirstFree()) && Ready(WatchingFree(TwoBlocks()), AtFirstFree())
    ensures LeakSession.Booked(WatchingFree(TwoBlocks()), AtFirstFree().bps.Keys, {120})
    ensures Tracks(WatchingFree(TwoBlocks()), HeapOf(TwoBlocks()))
    ensures OnStop(WatchingFree(TwoBlocks()), AtFirstFree()).1 == AtFirstFree()
    ensures OneThread(Stubbed(), AtFirstFree(), 1, Jumps(), TrapsAgain())
    ensures !LeavesStop(Stubbed(), AtFirstFree(), 1, Jumps(), TrapsAgain())
    ensures var envs := [(Jumps(), TrapsAgain())];
      var t := WatchingFree(TwoBlocks());
      var (t1, d1, out) := AutoCont(Stubbed(), t, AtFirstFree(), Stopped(SIGTRAP, 100), envs);
      var es := CallsMade(Stubbed(), t, AtFirstFree(), HeapOf(TwoBlocks()), Stopped(SIGTRAP, 100), envs);
      && out == Some(Done(Stopped(SIGTRAP, 120))) && t1.live == map[2000 := BLOCK]
      && es == [Free(1000), Free(2000)] && HeapBy(HeapOf(TwoBlocks()), es) == HeapOf(map[])
  {
    StubInOrder();
    FirstFreeHandled();
    StubGood();
    StubRun();
    FirstFreeShown();
    HeapEmpty();
    StubDecodes();
    hide Consistent, Decodable, OnStop, OneThread, AtFirstFree, View, AutoCont, ObserveActs, Coded, StubIsa, LeavesStop;
    hide Ready, LeakSession.Booked, Tracks, HiddenRuns, HeapOf, TwoBlocks, HeapBy, Thread;
    BothFreed(View(AtFirstFree()).mem);
    NotInTime();
  }

  lemma HeapEmpty()
    ensures HeapBy(HeapOf(TwoBlocks()), [Free(1000), Free(2000)]) == HeapOf(map[])
  {
    FreesOne();
    assert [Free(1000), Free(2000)][1..] == [Free(2000)] && [Free(2000)][1..] == [];
    hide HeapOf, TwoBlocks, LeakHeap.After;
  }

  /** Two calls in one `cont`, so by the exact condition the stop is not left in time. */
  lemma NotInTime()
    ensures !LeavesStop(Stubbed(), AtFirstFree(), 1, Jumps(), TrapsAgain())
  {
    StubInOrder();
    FirstFreeHandled();
    StubGood();
    StubDecodes();
    StubActs();
    FirstFreeShown();
    var t, h := WatchingFree(TwoBlocks()), HeapOf(TwoBlocks());
    assert AtFirstFree().at.Some?;
    hide Consistent, Decodable, OnStop, OneThread, AtFirstFree, View, ObserveActs, Coded, StubIsa, LeavesStop, ContRuns;
    hide Ready, LeakSession.Booked, Tracks, HeapOf, TwoBlocks, Thread, CarriedOut;
    BothFreed(View(AtFirstFree()).mem);
    CarriedOnceIff(Stubbed(), t, AtFirstFree(), h, 1, Jumps(), TrapsAgain(), {120});
  }

  lemma TwiceThere(mem: Memory)
    requires Coded(mem)
    ensures TurnsAt(StubIsa(), State(mem, Thread(100, 110, 1000), {}), [1, 1, 1], 100) == 2
  {
    var u1, u2, u3 := State(mem, Thread(110, 110, 1000), {}), State(mem, Thread(100, 120, 2000), {}),
                      State(mem, Thread(120, 120, 2000), {});
    ThreeTurns(mem);
    Turns();
    hide StubIsa, Step, Peek;
    assert TurnsAt(StubIsa(), u3, [], 100) == 0;
    assert TurnsAt(StubIsa(), u2, [1], 100) == 1;
    assert TurnsAt(StubIsa(), u1, [1, 1], 100) == 1;
  }

  /** The same without the tracker: the instruction under the breakpoint at 100 is executed
      twice in one `cont`, by the one thread, and no stop there is reported. */
  lemma PassedTwice()
    ensures Consistent(AtFirstFree()) && AtFirstFree().at == Some(100) && 100 in AtFirstFree().bps
    ensures OneThread(Stubbed(), AtFirstFree(), 1, Jumps(), TrapsAgain())
    ensures var (d, out) := Cont(Stubbed(), AtFirstFree(), Jumps(), TrapsAgain());
      out == Done(Stopped(SIGTRAP, 120)) && 100 in d.bps
    ensures var runs := ContRuns(Stubbed(), AtFirstFree(), Jumps(), TrapsAgain());
      TurnsOver(StubIsa(), View(AtFirstFree()), runs, 100) == 2
  {
    StubArmed();
    StubStepGood();
    FirstFreeConsistent();
    StubGood();
    StubContinues();
    JumpPlanted();
    JumpRuns();
    FirstFreeShown();
    StubDecodes();
    assert AtUsers().bps == StubTable();
    hide Consistent, Decodable, GoodCont, Cont, AtFirstFree, AtUsers, Jumping, StubTable, View, Executed, SteppingAt;
    hide ContRuns, TurnsOver, TurnsAt, StubIsa, Thread, Coded, Raw, Alone;
    TwiceThere(View(AtFirstFree()).mem);
    PassesOnlyAtStop(Stubbed(), AtFirstFree(), Jumps(), TrapsAgain(), 100);
  }
}
