/** Two threads at the entry of `malloc`, and two calls: the tracker notes one of them. While
    thread 1 is stepped over the entry point its breakpoint is out for every thread, and
    thread 2 begins its call there without a stop. */
module LeakMissed {
  import opened Words
  import opened Machine
  import opened Overlay
  import opened Engine
  import opened Transparency
  import opened Stops
  import opened Session
  import opened Defects
  import opened Walkthrough
  import opened LeakTracking
  import opened LeakCalls
  import opened Passes
  import opened LeakRuns
  import opened LeakWitness
  import LeakHeap
  import LeakSession

  /** The second caller: 40 bytes asked for, its stack at 308. */
  function Other(pc: Word): Regs {
    Regs(pc, 0, 40, 0, 308, 0, [])
  }

  function Pair(first: Word, second: Word): map<Tid, Regs> {
    map[1 := Caller(first), 2 := Other(second)]
  }

  /** Both threads in front of the entry point, the stop reported for thread 1. */
  function BothAtEntry(): Dbg {
    Dbg(true, State(Calling(), Pair(100, 100), {}), EntryAndUser(),
        Some(100), [1, 2], 0, Some(Stopped(SIGTRAP, 100)))
  }

  /** Thread 1's call noted. */
  function BothNoted(): Dbg {
    Dbg(true, State(NotedMemory(), Pair(100, 100), {}), NotedTable(),
        Some(100), [1, 2], 0, Some(Stopped(SIGTRAP, 100)))
  }

  // ---------- two threads executing one-byte instructions

  lemma FirstTurn(mem: Memory, a: Word, b: Word, trapped: set<Tid>)
    requires 1 !in trapped
    ensures Step(NopIsa(), State(mem, Pair(a, b), trapped), 1)
         == State(mem, Pair(Inc(a), b), if Peek(mem, a) == INT3 then trapped + {1} else trapped)
  {
    TwoUpdated(Caller(a), Other(b), Caller(Inc(a)));
    assert mem + map[] == mem;
    assert map[] + Pair(Inc(a), b) == Pair(Inc(a), b);
  }

  lemma SecondTurn(mem: Memory, a: Word, b: Word, trapped: set<Tid>)
    requires 2 !in trapped
    ensures Step(NopIsa(), State(mem, Pair(a, b), trapped), 2)
         == State(mem, Pair(a, Inc(b)), if Peek(mem, b) == INT3 then trapped + {2} else trapped)
  {
    TwoUpdated(Caller(a), Other(b), Other(Inc(b)));
    assert mem + map[] == mem;
    assert map[] + Pair(a, Inc(b)) == Pair(a, Inc(b));
  }

  /** One turn each. */
  lemma BothTurn(mem: Memory, a: Word)
    requires Peek(mem, a) != INT3
    ensures Run(NopIsa(), State(mem, Pair(a, a), {}), [1, 2]) == State(mem, Pair(Inc(a), Inc(a)), {})
  {
    FirstTurn(mem, a, a, {});
    SecondTurn(mem, Inc(a), a, {});
    assert [1, 2][1..] == [2] && [2][1..] == [];
    hide NopIsa, Step, Pair, Peek;
  }

  /** Both run into the `int3` at `a`. */
  lemma BothTrap(mem: Memory, a: Word)
    requires Peek(mem, a) == INT3
    ensures Run(NopIsa(), State(mem, Pair(a, a), {}), [1, 2]) == State(mem, Pair(Inc(a), Inc(a)), {1, 2})
  {
    FirstTurn(mem, a, a, {});
    SecondTurn(mem, Inc(a), a, {1});
    assert [1, 2][1..] == [2] && [2][1..] == [];
    assert {} + {1} == {1} && {1} + {2} == {1, 2};
    hide NopIsa, Step, Pair, Peek;
  }

  lemma BothMove(mem: Memory, saved: Memory, a: Word)
    requires Peek(mem, a) != INT3 && a !in saved
    ensures Effective(NopIsa(), State(mem, Pair(a, a), {}), saved, [1, 2]) == [1, 2]
  {
    FirstTurn(mem, a, a, {});
    SecondTurn(mem, Inc(a), a, {});
    assert [1, 2][1..] == [2] && [2][1..] == [];
    hide NopIsa, Step, Peek;
  }

  lemma NoneMoves(mem: Memory, saved: Memory, a: Word)
    requires Peek(mem, a) == INT3 && a in saved
    ensures Effective(NopIsa(), State(mem, Pair(a, a), {}), saved, [1, 2]) == []
  {
    FirstTurn(mem, a, a, {});
    SecondTurn(mem, Inc(a), a, {1});
    assert [1, 2][1..] == [2] && [2][1..] == [];
    hide NopIsa, Step, Peek;
  }

  lemma {:induction false} EffectiveConcat(isa: Isa, s: State, saved: Memory, a: seq<Tid>, b: seq<Tid>)
    ensures Effective(isa, s, saved, a + b)
         == Effective(isa, s, saved, a) + Effective(isa, Run(isa, s, a), saved, b)
    decreases |a|
  {
    if a == [] {
      assert a + b == b;
    } else {
      assert (a + b)[0] == a[0] && (a + b)[1..] == a[1..] + b;
      hide Step, Moves;
      EffectiveConcat(isa, Step(isa, s, a[0]), saved, a[1..], b);
    }
  }

  /** One instruction each, and then into the temporary breakpoint after it. */
  lemma FourTurns(mem: Memory, saved: Memory, a: Word)
    requires Peek(mem, a) != INT3 && Peek(mem, Inc(a)) == INT3 && a !in saved && Inc(a) in saved
    ensures Run(NopIsa(), State(mem, Pair(a, a), {}), [1, 2, 1, 2])
         == State(mem, Pair(Inc(Inc(a)), Inc(Inc(a))), {1, 2})
    ensures Effective(NopIsa(), State(mem, Pair(a, a), {}), saved, [1, 2, 1, 2]) == [1, 2]
  {
    assert [1, 2, 1, 2] == [1, 2] + [1, 2];
    hide NopIsa, Pair, Peek, Run, Effective;
    BothTurn(mem, a);
    BothTrap(mem, Inc(a));
    BothMove(mem, saved, a);
    NoneMoves(mem, saved, Inc(a));
    RunConcat(NopIsa(), State(mem, Pair(a, a), {}), [1, 2], [1, 2]);
    EffectiveConcat(NopIsa(), State(mem, Pair(a, a), {}), saved, [1, 2], [1, 2]);
    assert [1, 2] + [] == [1, 2];
  }

  // ---------- the stop is handled

  lemma BothShown()
    ensures CurrentRegs(BothAtEntry()) == Some(Caller(100)) && ReadWord(BothAtEntry(), 300) == Some(144)
  {
    StackKept();
    hide Calling, NotedMemory, HoldsSite, ReadWord;
    SiteOnStack(BothAtEntry());
  }

  lemma BothSiteArmed()
    ensures SetBp(BothAtEntry(), 144) == (BothNoted(), true)
  {
  }

  lemma BothHandled()
    ensures OnStop(Watching(), BothAtEntry()) == (Noted([CALL]), BothNoted(), Some(true))
  {
    BothShown();
    BothSiteArmed();
    CallsAdded();
    hide CurrentRegs, ReadWord, SetBp, AddPending, BothAtEntry, BothNoted, OnStop;
    LeakSession.MallocNoted(Watching(), BothAtEntry(), Caller(100), 144);
  }

  // ---------- the `cont` that follows

  /** Both threads get two turns in the first resume, and one before the user interrupts. */
  function Together(): Env {
    Env([1, 2, 1, 2], [1, 2], StopEvent(SIGTRAP))
  }

  const SIGINT: nat := 2

  function Interrupted(): Env {
    Env([1, 2], [1, 2], StopEvent(SIGINT))
  }

  /** The session while thread 1 is stepped over the entry point. */
  function Passing(pc: Word, trapped: set<Tid>, at: Option<Word>, last: Word): Dbg {
    Dbg(true, State(NotedMemory()[100 := NOP][101 := INT3], Pair(pc, pc), trapped),
        OthersTable()[101 := Bp(true, [NOP])], at, [1, 2], 0, Some(Stopped(SIGTRAP, last)))
  }

  lemma BothTakenOut()
    ensures var d := Disarmed(BothNoted().(at := None), 100);
      d == BothNoted().(at := None, bps := OthersTable(),
                        target := BothNoted().target.(mem := NotedMemory()[100 := NOP]))
  {
    assert NotedTable() - {100} == OthersTable();
  }

  lemma BothPlanted()
    ensures SteppingAt(Nops(), BothNoted()) == Passing(100, {}, None, 100)
  {
    var d := Disarmed(BothNoted().(at := None), 100);
    BothTakenOut();
    assert 101 in NotedMemory() && NotedMemory()[101] == NOP;
    assert 101 !in OthersTable();
    hide Disarmed, NotedTable, NotedMemory, OthersTable;
    assert Candidates(Nops(), d, 100) == [101];
    OnePlanted(d, 101);
    hide Plant, Candidates;
  }

  lemma PassingBytes()
    ensures var mem, saved := NotedMemory()[100 := NOP][101 := INT3], Saved(OthersTable()[101 := Bp(true, [NOP])]);
      Peek(mem, 100) == NOP && Peek(mem, 101) == INT3 && 100 !in saved && 101 in saved
  {
  }

  /** What the first resume executes and leaves. */
  lemma PassingRuns()
    ensures Raw(NopIsa(), Passing(100, {}, None, 100), Together())
         == State(Passing(100, {}, None, 100).target.mem, Pair(102, 102), {1, 2})
    ensures Executed(NopIsa(), Passing(100, {}, None, 100), Together()) == [1, 2]
  {
    var d := Passing(100, {}, None, 100);
    PassingBytes();
    FourTurns(d.target.mem, Saved(d.bps), 100);
    assert Settle(d.target) == State(d.target.mem, Pair(100, 100), {});
    hide NopIsa, Run, Effective, NotedMemory, OthersTable, Saved, Pair;
  }

  lemma BothPass()
    ensures Stint(NopIsa(), Passing(100, {}, None, 100), Together()) == Passing(101, {1, 2}, Some(101), 101)
    ensures Executed(NopIsa(), Passing(100, {}, None, 100), Together()) == [1, 2]
  {
    PassingRuns();
    hide NopIsa, Run, Executed, Handle, NotedMemory, OthersTable, Settle;
    assert Resume(NopIsa(), Passing(100, {}, None, 100), Together()) == Passing(102, {1, 2}, None, 102);
    PassingHit(Passing(102, {1, 2}, None, 102));
  }

  lemma PassingHit(d: Dbg)
    requires d == Passing(102, {1, 2}, None, 102)
    ensures Handle(d) == Passing(101, {1, 2}, Some(101), 101)
  {
    assert LooksTrapped(d, 1) && LooksTrapped(d, 2) by {
      hide NotedMemory, OthersTable;
    }
    hide NotedMemory, OthersTable, LooksTrapped;
    assert FirstHit(d, d.threads) == 0;
    assert Rewound(d) == Pair(101, 101);
  }

  /** The session between the two resumes: both threads past the entry point. */
  function BothPast(pc: Word, trapped: set<Tid>, last: Status): Dbg {
    Dbg(true, State(NotedMemory(), Pair(pc, pc), trapped), NotedTable(), None, [1, 2], 0, Some(last))
  }

  lemma BothPutBack()
    ensures SetBp(Unplant(Passing(101, {1, 2}, Some(101), 101), [101]), 100)
         == (BothPast(101, {1, 2}, Stopped(SIGTRAP, 101)), true)
  {
    var d := Passing(101, {1, 2}, Some(101), 101);
    assert [101][1..] == [];
    assert Unplant(d, [101]) == RemoveBp(d, 101).0;
    PatchesBack();
    hide NotedMemory, Calling, NotedTable, OthersTable, Unplant;
  }

  lemma PairListed(a: Word)
    ensures ListsExactly([1, 2], Pair(a, a))
  {
    BothListed(Caller(a), Other(a));
  }

  lemma BothConsistent()
    ensures Consistent(BothNoted())
  {
    NotedArmed();
    PairListed(100);
    hide NotedMemory, NotedTable, ListsExactly;
  }

  lemma BothOnlyNext()
    ensures var d := Disarmed(BothNoted().(at := None), 100);
      && Candidates(Nops(), d, 100) == [101] && Plant(d, [101]).1 == [101]
      && CurrentRegs(d) == Some(Caller(100))
  {
    var d := Disarmed(BothNoted().(at := None), 100);
    BothTakenOut();
    assert 101 in NotedMemory() && 101 !in OthersTable();
    assert [101] + [] == [101] && [101][1..] == [];
    hide Disarmed, NotedTable, NotedMemory, OthersTable;
  }

  lemma BothSteppedOver()
    ensures StepOver(Nops(), BothNoted().(at := None), 100, Together())
         == (BothPast(101, {1, 2}, Stopped(SIGTRAP, 101)), Done(Stopped(SIGTRAP, 101)))
  {
    BothConsistent();
    TakeAt(BothNoted());
    StepOverUnfolds(Nops(), BothNoted().(at := None), 100, Together());
    BothPlanted();
    BothOnlyNext();
    BothPass();
    BothPutBack();
    hide Consistent, Disarmed, Plant, Unplant, Resume, Handle, Passing, BothPast, BothNoted, SetBp, StepOver;
    hide Candidates;
  }

  lemma PastBytes()
    ensures Peek(NotedMemory(), 101) == NOP && 101 !in Saved(NotedTable()) && 101 !in NotedTable()
  {
  }

  lemma BothGoOn()
    ensures Stint(NopIsa(), BothPast(101, {1, 2}, Stopped(SIGTRAP, 101)), Interrupted())
         == BothPast(102, {}, Stopped(SIGINT, 102))
    ensures Executed(NopIsa(), BothPast(101, {1, 2}, Stopped(SIGTRAP, 101)), Interrupted()) == [1, 2]
  {
    var d, env := BothPast(101, {1, 2}, Stopped(SIGTRAP, 101)), Interrupted();
    PastBytes();
    BothTurn(d.target.mem, 101);
    BothMove(d.target.mem, Saved(d.bps), 101);
    assert Settle(d.target) == State(NotedMemory(), Pair(101, 101), {});
    hide NopIsa, Run, Effective, Handle, NotedMemory, NotedTable, Saved;
    assert Resume(NopIsa(), d, env) == BothPast(102, {}, Stopped(SIGINT, 102));
    NoTrapStop(BothPast(102, {}, Stopped(SIGINT, 102)));
  }

  lemma NoTrapStop(d: Dbg)
    requires d.last == Some(Stopped(SIGINT, 102))
    ensures Handle(d) == d
  {
    hide FirstHit, Rewound;
  }

  lemma BothContinue()
    ensures Cont(Nops(), BothNoted(), Together(), Interrupted())
         == (BothPast(102, {}, Stopped(SIGINT, 102)), Done(Stopped(SIGINT, 102)))
    ensures SteppedOver(Nops(), BothNoted(), Together()) == BothPast(101, {1, 2}, Stopped(SIGTRAP, 101))
  {
    BothSteppedOver();
    BothGoOn();
    hide StepOver, Resume, Handle;
  }

  // ---------- the conditions of the theorems

  lemma NopClean(mem: Memory, threads: map<Tid, Regs>, t: Tid, armed: set<Word>)
    requires t in threads && threads[t].pc !in armed
    ensures Clean(NopIsa(), State(mem, threads, {}), armed, t)
  {
    assert |Code(NopIsa(), mem, threads[t].pc)| == 1;
    assert Plus(threads[t].pc, 0) == threads[t].pc;
  }

  lemma BothClean(mem: Memory, a: Word, armed: set<Word>)
    requires Peek(mem, a) != INT3 && a !in armed
    ensures CleanRun(NopIsa(), State(mem, Pair(a, a), {}), armed, [1, 2])
  {
    NopClean(mem, Pair(a, a), 1, armed);
    NopClean(mem, Pair(Inc(a), a), 2, armed);
    FirstTurn(mem, a, a, {});
    assert [1, 2][1..] == [2] && [2][1..] == [];
    hide NopIsa, Step, Clean, Peek;
  }

  lemma PassingClean()
    ensures var d := Passing(100, {}, None, 100); CleanRun(NopIsa(), View(d), d.bps.Keys, [1, 2])
  {
    var d := Passing(100, {}, None, 100);
    PassingShown();
    assert 100 !in d.bps;
    hide NopIsa, NotedMemory, OthersTable, Saved, CleanRun, Peek;
    BothClean(d.target.mem + Saved(d.bps), 100, d.bps.Keys);
  }

  lemma PassingShown()
    ensures var d := Passing(100, {}, None, 100); Peek(d.target.mem + Saved(d.bps), 100) == NOP
  {
    PassingBytes();
    hide NotedMemory, OthersTable, Saved;
  }

  lemma PassingGood()
    ensures GoodStint(NopIsa(), Passing(100, {}, None, 100), Together())
  {
    PassingRuns();
    PassingClean();
    PairListed(102);
    assert 101 in Passing(100, {}, None, 100).bps;
    hide NopIsa, Raw, Executed, NotedMemory, OthersTable, CleanRun, ListsExactly, View;
  }

  lemma PastGood()
    ensures GoodStint(NopIsa(), BothPast(101, {1, 2}, Stopped(SIGTRAP, 101)), Interrupted())
  {
    var d, env := BothPast(101, {1, 2}, Stopped(SIGTRAP, 101)), Interrupted();
    PastBytes();
    BothTurn(d.target.mem, 101);
    BothGoOn();
    PairListed(102);
    assert Settle(d.target) == State(NotedMemory(), Pair(101, 101), {});
    assert View(d).mem == d.target.mem + Saved(d.bps);
    BothClean(d.target.mem + Saved(d.bps), 101, d.bps.Keys);
    hide NopIsa, Run, Effective, Executed, NotedMemory, NotedTable, Saved, CleanRun, ListsExactly;
  }

  lemma BothGood()
    ensures GoodCont(Nops(), BothNoted(), Together(), Interrupted())
  {
    BothContinue();
    BothPlanted();
    BothOnlyNext();
    PassingGood();
    PastGood();
    hide GoodStint, SteppedOver, Disarmed, Prepared, Passing, BothPast, Plant, Candidates;
  }

  /** All is in order before: the invariant, the books, and no call under way. */
  lemma BothInOrder()
    ensures Consistent(BothAtEntry()) && LeakSession.Booked(Watching(), BothAtEntry().bps.Keys, {200})
    ensures LeakHeap.Tracks(Watching(), LeakHeap.NoHeap())
  {
    EntryInOrder();
    EntryArmed();
    PairListed(100);
    hide ListsExactly, Calling, EntryAndUser, LeakSession.Booked, LeakHeap.Tracks;
  }

  // ---------- what the program calls

  /** The word at 308 is 144 too. */
  ghost predicate HoldsOther(mem: Memory) {
    forall a: Word :: 308 <= a < 316 ==> a in mem && mem[a] == if a == 308 then NOP else 0
  }

  lemma OtherOnStack(mem: Memory)
    requires HoldsOther(mem)
    ensures Top(mem, 308) == 144
  {
    SmallWord(Slice(mem, 308, 8));
  }

  lemma OtherThere()
    ensures HoldsOther(Calling())
  {
  }

  lemma OtherKept()
    ensures HoldsOther(View(BothAtEntry()).mem)
  {
    OtherThere();
    EntryArmed();
    hide Calling, EntryAndUser;
  }

  lemma StacksShown()
    ensures Top(View(BothAtEntry()).mem, 300) == 144 && Top(View(BothAtEntry()).mem, 308) == 144
  {
    BothInOrder();
    BothShown();
    OtherKept();
    hide BothAtEntry, View, Consistent, ReadWord, HoldsOther;
    WordShown(BothAtEntry(), 300);
    OtherOnStack(View(BothAtEntry()).mem);
  }

  const FIRST: LeakHeap.HeapEvent := LeakHeap.Malloc(0, 24, 144)
  const SECOND: LeakHeap.HeapEvent := LeakHeap.Malloc(1, 40, 144)

  function OneCall(): LeakHeap.Heap {
    LeakHeap.After(LeakHeap.NoHeap(), FIRST)
  }

  lemma OneUnderWay()
    ensures LeakHeap.NoHeap().calls.Keys == {} && OneCall().calls.Keys == {0}
    ensures LeakHeap.Legal(OneCall(), SECOND)
    ensures var h := LeakHeap.After(OneCall(), SECOND); forall id :: id in h.calls ==> h.calls[id].info.callSite == 144
  {
  }

  lemma TheirCalls(mem: Memory)
    requires Top(mem, 300) == 144 && Top(mem, 308) == 144
    ensures Turn(AllocatorOf(Watching()), State(mem, Pair(100, 100), {}), 1, LeakHeap.NoHeap()) == Some(FIRST)
    ensures Turn(AllocatorOf(Watching()), State(mem, Pair(101, 100), {}), 2, OneCall()) == Some(SECOND)
  {
    OneUnderWay();
    assert Above({}) == 0 && Above({0}) == 1;
    hide Top, LeakHeap.After, LeakHeap.NoHeap, OneCall;
  }

  lemma TwoTurns(c: Allocator, isa: Isa, u: State, u1: State, x: Tid, y: Tid, h: LeakHeap.Heap,
                 e: LeakHeap.HeapEvent, f: LeakHeap.HeapEvent)
    requires u1 == Step(isa, u, x) && Turn(c, u, x, h) == Some(e) && Turn(c, u1, y, LeakHeap.After(h, e)) == Some(f)
    ensures Observe(c, isa, u, [x, y], h) == [e, f]
  {
    assert [x, y][1..] == [y] && [y][1..] == [];
    assert Observe(c, isa, u1, [y], LeakHeap.After(h, e)) == [f] + [];
    hide Step, Turn, LeakHeap.After;
  }

  /** Two calls, one after the other. */
  lemma BothCall(mem: Memory)
    requires Top(mem, 300) == 144 && Top(mem, 308) == 144 && Peek(mem, 100) != INT3
    ensures Observe(AllocatorOf(Watching()), NopIsa(), State(mem, Pair(100, 100), {}), [1, 2], LeakHeap.NoHeap())
         == [FIRST, SECOND]
  {
    FirstTurn(mem, 100, 100, {});
    TheirCalls(mem);
    hide NopIsa, Step, Turn, Peek, Top, LeakHeap.NoHeap, Pair;
    TwoTurns(AllocatorOf(Watching()), NopIsa(), State(mem, Pair(100, 100), {}), State(mem, Pair(101, 100), {}), 1, 2,
             LeakHeap.NoHeap(), FIRST, SECOND);
  }

  lemma BothThere(mem: Memory)
    requires Peek(mem, 100) != INT3
    ensures TurnsAt(NopIsa(), State(mem, Pair(100, 100), {}), [1, 2], 100) == 2
  {
    FirstTurn(mem, 100, 100, {});
    assert [1, 2][1..] == [2] && [2][1..] == [];
    hide NopIsa, Step, Peek;
  }

  lemma NothingAtNext(mem: Memory, x: Tid, a: Word, b: Word, h: LeakHeap.Heap)
    requires forall id :: id in h.calls ==> h.calls[id].info.callSite == 144
    requires a in {101, 102} && b in {101, 102}
    ensures Turn(AllocatorOf(Watching()), State(mem, Pair(a, b), {}), x, h) == None
  {
    var u := State(mem, Pair(a, b), {});
    if x in u.threads {
      var pc := u.threads[x].pc;
      assert LeakHeap.InFlight(h, pc) == {};
    }
    hide Top, Above;
  }

  /** After that, nothing for the heap. */
  lemma BothQuiet(mem: Memory, h: LeakHeap.Heap)
    requires Peek(mem, 101) != INT3 && forall id :: id in h.calls ==> h.calls[id].info.callSite == 144
    ensures Observe(AllocatorOf(Watching()), NopIsa(), State(mem, Pair(101, 101), {}), [1, 2], h) == []
  {
    FirstTurn(mem, 101, 101, {});
    NothingAtNext(mem, 1, 101, 101, h);
    NothingAtNext(mem, 2, 102, 101, h);
    assert [1, 2][1..] == [2] && [2][1..] == [];
    hide NopIsa, Step, Turn, Peek, Pair;
  }

  lemma HeapByTwo(h: LeakHeap.Heap, e: LeakHeap.HeapEvent, f: LeakHeap.HeapEvent)
    requires LeakHeap.Legal(h, e) && LeakHeap.Legal(LeakHeap.After(h, e), f)
    ensures HeapBy(h, [e, f]) == LeakHeap.After(LeakHeap.After(h, e), f)
  {
    assert [e, f] == [e] + [f];
    HeapByConcat(h, [e], [f]);
    HeapByOne(h, e);
    HeapByOne(LeakHeap.After(h, e), f);
    hide LeakHeap.After;
  }

  /** The two runs of `cont` make two calls. */
  lemma BothHeard(mem: Memory)
    requires Top(mem, 300) == 144 && Top(mem, 308) == 144 && Peek(mem, 100) != INT3 && Peek(mem, 101) != INT3
    ensures ObserveActs(AllocatorOf(Watching()), NopIsa(), State(mem, Pair(100, 100), {}),
                        [Ran([1, 2]), Ran([1, 2])], LeakHeap.NoHeap()) == [FIRST, SECOND]
  {
    var h := LeakHeap.After(OneCall(), SECOND);
    OneUnderWay();
    HeapByTwo(LeakHeap.NoHeap(), FIRST, SECOND);
    BothCall(mem);
    BothTurn(mem, 100);
    BothQuiet(mem, h);
    hide NopIsa, Run, Observe, ObserveActs, Peek, Top, HeapBy, Pair, Watching, LeakHeap.After, LeakHeap.NoHeap;
    TwoActs(AllocatorOf(Watching()), NopIsa(), State(mem, Pair(100, 100), {}), [1, 2], [1, 2], LeakHeap.NoHeap());
  }

  /** The stop that ends the run is the user's interrupt, not the tracker's. */
  lemma NotTheTrackers()
    ensures OnStop(Noted([CALL]), BothPast(102, {}, Stopped(SIGINT, 102)))
         == (Noted([CALL]), BothPast(102, {}, Stopped(SIGINT, 102)), Some(false))
  {
    assert Noted([CALL]).pending.Keys == {144};
    hide NotedMemory, NotedTable;
  }

  lemma BothActs()
    ensures Consistent(BothNoted())
    ensures ContRuns(Nops(), BothNoted(), Together(), Interrupted()) == [Ran([1, 2]), Ran([1, 2])]
  {
    BothConsistent();
    BothContinue();
    BothPlanted();
    BothPass();
    BothGoOn();
    assert BothNoted().at == Some(100);
    hide Consistent, Executed, SteppedOver, Passing, BothPast, BothNoted, SteppingAt, ContActs, Stint, Cont;
    ActsOf(Nops(), BothNoted(), Together(), Interrupted());
  }

  lemma EntryShown()
    ensures View(BothAtEntry()) == State(View(BothAtEntry()).mem, Pair(100, 100), {})
    ensures Peek(View(BothAtEntry()).mem, 100) == NOP && Peek(View(BothAtEntry()).mem, 101) == NOP
  {
    EntryArmed();
    assert 101 in Calling() && Calling()[101] == NOP;
    hide Calling, EntryAndUser, Pair;
  }

  /** The run `auto_cont` makes: one stop handled, and then one that is not the tracker's. */
  lemma BothRun()
    ensures AutoCont(Nops(), Watching(), BothAtEntry(), Stopped(SIGTRAP, 100), [(Together(), Interrupted())])
         == (Noted([CALL]), BothPast(102, {}, Stopped(SIGINT, 102)), Some(Done(Stopped(SIGINT, 102))))
    ensures var envs := [(Together(), Interrupted())];
      HiddenRuns(Nops(), Watching(), BothAtEntry(), Stopped(SIGTRAP, 100), envs)
         == [Ran([1, 2]), Ran([1, 2])]
  {
    BothHandled();
    BothContinue();
    BothActs();
    NotTheTrackers();
    hide OnStop, Cont, Consistent, ContRuns, BothNoted, BothAtEntry, BothPast, Noted;
    assert [(Together(), Interrupted())][1..] == [];
  }

  lemma BothReady()
    ensures Ready(Watching(), BothAtEntry()) && BothAtEntry().at.Some?
  {
    BothShown();
    EntryArmed();
    assert 144 in Calling() && 144 !in EntryAndUser();
    hide ReadWord, CurrentRegs, Calling, EntryAndUser;
  }

  /** The run meets the conditions of `CarriedIff`, the program calls `malloc` twice, and
      the tracker notes one call. The stage of the `cont` executes the entry point twice. */
  lemma CallMissed()
    ensures Consistent(BothAtEntry()) && LeakSession.Booked(Watching(), BothAtEntry().bps.Keys, {200})
    ensures LeakHeap.Tracks(Watching(), LeakHeap.NoHeap())
    ensures Ready(Watching(), BothAtEntry()) && BothAtEntry().at.Some?
    ensures OnStop(Watching(), BothAtEntry()).1 == BothNoted()
    ensures GoodCont(Nops(), BothNoted(), Together(), Interrupted())
    ensures TurnsAtStop(Nops(), Watching(), BothAtEntry(), Together(), Interrupted()) == 2
    ensures var envs := [(Together(), Interrupted())];
      var (t1, d1, out) := AutoCont(Nops(), Watching(), BothAtEntry(), Stopped(SIGTRAP, 100), envs);
      && t1.pending == map[144 := [CALL]] && out == Some(Done(Stopped(SIGINT, 102)))
      && CallsMade(Nops(), Watching(), BothAtEntry(), LeakHeap.NoHeap(), Stopped(SIGTRAP, 100), envs)
         == [LeakHeap.Malloc(0, 24, 144), LeakHeap.Malloc(1, 40, 144)]
  {
    BothInOrder();
    BothReady();
    BothHandled();
    BothGood();
    BothRun();
    EntryShown();
    StacksShown();
    BothStage();
    assert Noted([CALL]).pending == map[144 := [CALL]];
    hide Consistent, OnStop, GoodCont, BothAtEntry, BothNoted, View, AutoCont, ObserveActs, Peek, Top, NopIsa;
    hide TurnsAtStop;
    hide Ready, LeakSession.Booked, LeakHeap.Tracks, HiddenRuns, LeakHeap.NoHeap;
    BothHeard(View(BothAtEntry()).mem);
  }

  lemma NotedShown()
    ensures View(BothNoted()) == State(View(BothNoted()).mem, Pair(100, 100), {})
    ensures Peek(View(BothNoted()).mem, 100) == NOP
  {
    NotedArmed();
    assert 100 in NotedTable();
    hide NotedMemory, NotedTable, Pair;
  }

  /** Both threads execute the entry point while it is out. */
  lemma BothStage()
    ensures TurnsAtStop(Nops(), Watching(), BothAtEntry(), Together(), Interrupted()) == 2
  {
    BothHandled();
    BothPlanted();
    BothPass();
    NotedShown();
    BothShown();
    assert 100 in BothNoted().bps;
    hide Executed, OnStop, SteppingAt, Passing, View, NopIsa, TurnsAt, Peek, Pair;
    BothThere(View(BothNoted()).mem);
  }

  /** What this means without the tracker: the breakpoint at 100 is armed before and after
      the `cont`, the instruction there is executed twice, and no stop at 100 is reported. */
  lemma PassedUnseen()
    ensures Consistent(BothNoted()) && BothNoted().at == Some(100) && 100 in BothNoted().bps
    ensures GoodCont(Nops(), BothNoted(), Together(), Interrupted())
    ensures var (d, out) := Cont(Nops(), BothNoted(), Together(), Interrupted());
      out == Done(Stopped(SIGINT, 102)) && 100 in d.bps
    ensures TurnsOver(NopIsa(), View(BothNoted()), ContRuns(Nops(), BothNoted(), Together(), Interrupted()), 100) == 2
  {
    assert 100 in NotedTable();
    BothConsistent();
    BothGood();
    BothContinue();
    BothPlanted();
    BothPass();
    NotedShown();
    NopsDecode();
    assert BothNoted().at == Some(100) && 100 in BothNoted().bps;
    assert BothPast(102, {}, Stopped(SIGINT, 102)).bps == NotedTable();
    hide Consistent, Decodable, GoodCont, Cont, BothNoted, BothPast, Passing, NotedTable, View, Executed, SteppingAt;
    hide ContRuns, TurnsOver, TurnsAt, NopIsa, Pair, Peek;
    BothThere(View(BothNoted()).mem);
    PassesOnlyAtStop(Nops(), BothNoted(), Together(), Interrupted(), 100);
  }
}
