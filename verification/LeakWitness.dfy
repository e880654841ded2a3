/** Two threads and one call to `malloc`: the tracker counts the call twice, because the
    stop at the entry point is reported a second time before the thread has moved. */
module LeakWitness {
  import opened Words
  import opened Machine
  import opened Overlay
  import opened Engine
  import opened Transparency
  import opened Stops
  import opened Session
  import opened Defects
  import opened Walkthrough
  import opened LeakTracking
  import opened Passes
  import LeakHeap
  import LeakSession

  /** The caller's registers at the entry point, 24 bytes asked for, its stack at 300. */
  function Caller(pc: Word): Regs {
    Regs(pc, 0, 24, 0, 300, 0, [])
  }

  /** `malloc` at 100, the user's breakpoint at 200, the return address 144. */
  function Calling(): Memory {
    map[100 := INT3, 101 := NOP, 144 := NOP, 200 := INT3, 300 := NOP,
        301 := 0, 302 := 0, 303 := 0, 304 := 0, 305 := 0, 306 := 0, 307 := 0, 308 := NOP,
        309 := 0, 310 := 0, 311 := 0, 312 := 0, 313 := 0, 314 := 0, 315 := 0]
  }

  function EntryAndUser(): map<Word, Bp> {
    map[100 := Bp(true, [NOP]), 200 := Bp(true, [NOP])]
  }

  /** Thread 1 stopped at the entry of `malloc`, thread 2 in front of the user's breakpoint. */
  function AtMallocEntry(): Dbg {
    Dbg(true, State(Calling(), map[1 := Caller(100), 2 := At(200)], {}), EntryAndUser(),
        Some(100), [1, 2], 0, Some(Stopped(SIGTRAP, 100)))
  }

  function Watching(): Tracker {
    Tracker(true, map[], Some(100), None, None, None, map[])
  }

  /** The word at 300 is 144. */
  ghost predicate HoldsSite(mem: Memory) {
    forall a: Word :: 300 <= a < 308 ==> a in mem && mem[a] == if a == 300 then NOP else 0
  }

  lemma SiteOnStack(d: Dbg)
    requires d.alive && HoldsSite(d.target.mem) && forall a :: a in d.bps ==> !(300 <= a < 308)
    ensures ReadWord(d, 300) == Some(144)
  {
    var mem := d.target.mem + Saved(d.bps);
    assert HoldsSite(mem);
    SmallWord(Slice(mem, 300, 8));
  }

  lemma StackKept()
    ensures HoldsSite(Calling()) && HoldsSite(NotedMemory())
  {
  }

  // ---------- the session after handling the stop

  function NotedMemory(): Memory {
    Calling()[144 := INT3]
  }

  function NotedTable(): map<Word, Bp> {
    EntryAndUser()[144 := Bp(true, [NOP])]
  }

  /** The session with the call noted, `trapped` threads aside. */
  function NotedSession(trapped: set<Tid>): Dbg {
    Dbg(true, State(NotedMemory(), map[1 := Caller(100), 2 := At(200)], trapped), NotedTable(),
        Some(100), [1, 2], 0, Some(Stopped(SIGTRAP, 100)))
  }

  const CALL: AllocInfo := AllocInfo(24, 144)

  function Noted(calls: seq<AllocInfo>): Tracker {
    Watching().(pending := map[144 := calls])
  }

  lemma SiteArmed()
    ensures SetBp(AtMallocEntry(), 144) == (NotedSession({}), true)
  {
  }

  lemma CallsAdded()
    ensures AddPending(Watching(), 144, 24) == Noted([CALL])
    ensures AddPending(Noted([CALL]), 144, 24) == Noted([CALL, CALL])
  {
    assert [] + [CALL] == [CALL] && [CALL] + [CALL] == [CALL, CALL];
    var none: map<Word, seq<AllocInfo>> := map[];
    assert none[144 := [CALL]] == map[144 := [CALL]];
    assert map[144 := [CALL]][144 := [CALL, CALL]] == map[144 := [CALL, CALL]];
  }

  lemma CallerShown(trapped: set<Tid>)
    ensures CurrentRegs(AtMallocEntry()) == Some(Caller(100)) && ReadWord(AtMallocEntry(), 300) == Some(144)
    ensures CurrentRegs(NotedSession(trapped)) == Some(Caller(100)) && ReadWord(NotedSession(trapped), 300) == Some(144)
  {
    StackKept();
    hide Calling, NotedMemory, HoldsSite, ReadWord;
    SiteOnStack(AtMallocEntry());
    SiteOnStack(NotedSession(trapped));
  }

  lemma FirstNoted()
    ensures OnStop(Watching(), AtMallocEntry()) == (Noted([CALL]), NotedSession({}), Some(true))
  {
    CallerShown({});
    SiteArmed();
    CallsAdded();
    hide CurrentRegs, ReadWord, SetBp, AddPending, AtMallocEntry, NotedSession, OnStop;
    LeakSession.MallocNoted(Watching(), AtMallocEntry(), Caller(100), 144);
  }

  lemma NotedAgain()
    ensures OnStop(Noted([CALL]), NotedSession({1})) == (Noted([CALL, CALL]), NotedSession({1}), Some(true))
  {
    CallerShown({1});
    CallsAdded();
    hide CurrentRegs, ReadWord, SetBp, AddPending, NotedSession, OnStop;
    LeakSession.MallocNoted(Noted([CALL]), NotedSession({1}), Caller(100), 144);
  }

  // ---------- the `cont` that follows

  /** In the first resume only thread 2 gets a turn, in the second only thread 1. */
  function OtherFirst(): Env {
    Env([2], [1, 2], StopEvent(SIGTRAP))
  }

  function ThenCaller(): Env {
    Env([1], [1, 2], StopEvent(SIGTRAP))
  }

  /** The session while thread 1 is to be stepped over its breakpoint. */
  function Stepping(second: Word, trapped: set<Tid>, at: Option<Word>, current: nat, pc: Word): Dbg {
    Dbg(true, State(NotedMemory()[100 := NOP][101 := INT3], map[1 := Caller(100), 2 := At(second)], trapped),
        OthersTable()[101 := Bp(true, [NOP])], at, [1, 2], current, Some(Stopped(SIGTRAP, pc)))
  }

  /** The table without the breakpoint stepped over. */
  function OthersTable(): map<Word, Bp> {
    map[144 := Bp(true, [NOP]), 200 := Bp(true, [NOP])]
  }

  lemma TakenOut()
    ensures var d := Disarmed(NotedSession({}).(at := None), 100);
      d == NotedSession({}).(at := None, bps := OthersTable(),
                             target := NotedSession({}).target.(mem := NotedMemory()[100 := NOP]))
  {
    assert NotedTable() - {100} == OthersTable();
  }

  lemma Planted()
    ensures Disarmed(NotedSession({}).(at := None), 100).bps == OthersTable()
    ensures SteppingAt(Nops(), NotedSession({})) == Stepping(200, {}, None, 0, 100)
  {
    var d := Disarmed(NotedSession({}).(at := None), 100);
    TakenOut();
    assert 101 in NotedMemory() && NotedMemory()[101] == NOP;
    assert 101 !in OthersTable();
    hide Disarmed, NotedTable, NotedMemory, OthersTable;
    assert Candidates(Nops(), d, 100) == [101];
    OnePlanted(d, 101);
    hide Plant, Candidates;
  }

  lemma OnePlanted(d: Dbg, a: Word)
    requires a !in d.bps
    ensures Plant(d, [a]).0 == SetBp(d, a).0
  {
    assert [a][1..] == [];
    hide SetBp;
  }

  lemma TwoUpdated(a: Regs, b: Regs, c: Regs)
    ensures map[1 := a, 2 := b][2 := c] == map[1 := a, 2 := c]
    ensures map[1 := a, 2 := b][1 := c] == map[1 := c, 2 := b]
  {
  }

  /** Thread 2 runs into the user's breakpoint; nothing is executed. */
  lemma FirstResume()
    ensures Stint(NopIsa(), Stepping(200, {}, None, 0, 100), OtherFirst()) == Stepping(200, {2}, Some(200), 1, 200)
    ensures Executed(NopIsa(), Stepping(200, {}, None, 0, 100), OtherFirst()) == []
  {
    var d, env := Stepping(200, {}, None, 0, 100), OtherFirst();
    TrapTurn(NopIsa(), d.target.mem, d.target.threads, 2);
    TrapExecutes(NopIsa(), Settle(d.target), Saved(d.bps), 2);
    TwoUpdated(Caller(100), At(200), At(201));
    assert Settle(d.target) == d.target;
    hide NopIsa, Run, Effective, Handle;
    assert Resume(NopIsa(), d, env) == Stepping(201, {2}, None, 0, 100);
    TrapSelected(Stepping(201, {2}, None, 0, 100));
  }

  lemma TrapSelected(d: Dbg)
    requires d == Stepping(201, {2}, None, 0, 100)
    ensures Handle(d) == Stepping(200, {2}, Some(200), 1, 200)
  {
    assert FirstHit(d, d.threads) == 1;
    assert Rewound(d) == map[1 := Caller(100), 2 := At(200)];
  }

  /** The session between the two resumes of `cont`. */
  function Halfway(second: Word, pc: Word, trapped: set<Tid>, at: Word, current: nat): Dbg {
    Dbg(true, State(NotedMemory(), map[1 := Caller(pc), 2 := At(second)], trapped), NotedTable(),
        Some(at), [1, 2], current, Some(Stopped(SIGTRAP, at)))
  }

  lemma PutBack()
    ensures SetBp(Unplant(Stepping(200, {2}, Some(200), 1, 200), [101]), 100)
         == (Halfway(200, 100, {2}, 200, 1), true)
  {
    var d := Stepping(200, {2}, Some(200), 1, 200);
    assert [101][1..] == [];
    assert Unplant(d, [101]) == RemoveBp(d, 101).0;
    PatchesBack();
    hide NotedMemory, Calling, NotedTable, OthersTable, Unplant;
  }

  lemma PatchesBack()
    ensures NotedMemory()[100 := NOP][101 := INT3][101 := NOP] == NotedMemory()[100 := NOP]
    ensures 100 in NotedMemory() && NotedMemory()[100 := NOP][100 := INT3] == NotedMemory()
    ensures OthersTable()[101 := Bp(true, [NOP])] - {101} == OthersTable()
    ensures OthersTable()[100 := Bp(true, [NOP])] == NotedTable()
  {
  }

  lemma OnlyNext()
    ensures Plant(Disarmed(NotedSession({}).(at := None), 100), [101]).1 == [101]
    ensures Candidates(Nops(), Disarmed(NotedSession({}).(at := None), 100), 100) == [101]
    ensures CurrentRegs(Disarmed(NotedSession({}).(at := None), 100)) == Some(Caller(100))
  {
    assert [101] + [] == [101];
  }

  lemma NotedConsistent(trapped: set<Tid>)
    requires trapped <= {1, 2}
    ensures Consistent(NotedSession(trapped))
  {
    NotedArmed();
    BothListed(Caller(100), At(200));
    hide NotedMemory, NotedTable, ListsExactly;
  }

  lemma BothListed(a: Regs, b: Regs)
    ensures ListsExactly([1, 2], map[1 := a, 2 := b])
  {
  }

  lemma NotedArmed()
    ensures NotedTable().Keys == {100, 144, 200}
    ensures forall a :: a in NotedTable() ==> NotedTable()[a] == Bp(true, [NOP])
    ensures forall a :: a in NotedTable() ==> a in NotedMemory() && NotedMemory()[a] == INT3
  {
  }

  lemma StepOverTwo()
    ensures StepOver(Nops(), NotedSession({}).(at := None), 100, OtherFirst())
         == (Halfway(200, 100, {2}, 200, 1), Done(Stopped(SIGTRAP, 200)))
  {
    NotedConsistent({});
    TakeAt(NotedSession({}));
    StepOverUnfolds(Nops(), NotedSession({}).(at := None), 100, OtherFirst());
    Planted();
    OnlyNext();
    FirstResume();
    PutBack();
    hide Consistent, Disarmed, Plant, Unplant, Resume, Handle, Stepping, Halfway, NotedSession, SetBp;
    hide StepOver, Candidates;
  }

  /** Thread 1 runs into the entry point again; nothing is executed. */
  lemma SecondResume()
    ensures Stint(NopIsa(), Halfway(200, 100, {2}, 200, 1), ThenCaller()) == NotedSession({1})
    ensures Executed(NopIsa(), Halfway(200, 100, {2}, 200, 1), ThenCaller()) == []
  {
    var d, env := Halfway(200, 100, {2}, 200, 1), ThenCaller();
    TrapTurn(NopIsa(), d.target.mem, d.target.threads, 1);
    TrapExecutes(NopIsa(), Settle(d.target), Saved(d.bps), 1);
    TwoUpdated(Caller(100), At(200), Caller(101));
    assert IndexOf([1, 2], 2) == 1;
    assert Settle(d.target).threads == d.target.threads;
    hide NopIsa, Run, Effective, Handle;
    assert Resume(NopIsa(), d, env) == Halfway(200, 101, {1}, 200, 1).(last := Some(Stopped(SIGTRAP, 200)));
    CallerSelected(Halfway(200, 101, {1}, 200, 1));
  }

  lemma CallerSelected(d: Dbg)
    requires d == Halfway(200, 101, {1}, 200, 1)
    ensures Handle(d) == NotedSession({1})
  {
    assert LooksTrapped(d, 1) && !LooksTrapped(d, 2);
    BackInFront(d);
    hide LooksTrapped, NotedTable, Rewound;
  }

  lemma BackInFront(d: Dbg)
    requires d.threads == [1, 2] && d.target.threads == map[1 := Caller(101), 2 := At(200)]
    requires LooksTrapped(d, 1) && !LooksTrapped(d, 2)
    ensures FirstHit(d, d.threads) == 0 && Rewound(d) == map[1 := Caller(100), 2 := At(200)]
  {
    hide IsArmed;
  }

  lemma ContTwo()
    ensures Cont(Nops(), NotedSession({}), OtherFirst(), ThenCaller())
         == (NotedSession({1}), Done(Stopped(SIGTRAP, 100)))
    ensures SteppedOver(Nops(), NotedSession({}), OtherFirst()) == Halfway(200, 100, {2}, 200, 1)
  {
    StepOverTwo();
    SecondResume();
    hide StepOver, Resume, Handle;
  }

  lemma NothingExecuted()
    ensures Consistent(NotedSession({}))
    ensures ContActs(Nops(), NotedSession({}), OtherFirst(), ThenCaller()) == [Ran([]), Ran([])]
  {
    NotedConsistent({});
    ContTwo();
    Planted();
    FirstResume();
    SecondResume();
    hide Consistent, Executed, SteppedOver, Stepping, Halfway, NotedSession, SteppingAt, ContActs, Stint, Cont;
    ActsOf(Nops(), NotedSession({}), OtherFirst(), ThenCaller());
  }

  /** All is in order before: the invariant, the books, and no call under way. */
  lemma EntryInOrder()
    ensures Consistent(AtMallocEntry()) && LeakSession.Booked(Watching(), AtMallocEntry().bps.Keys, {200})
    ensures LeakHeap.Tracks(Watching(), LeakHeap.NoHeap())
  {
    BothListed(Caller(100), At(200));
    EntryArmed();
    assert Entries(Watching()) == [100];
    assert Elems([100]) == {100};
    hide ListsExactly, Calling, EntryAndUser, Entries, Elems;
  }

  lemma EntryArmed()
    ensures EntryAndUser().Keys == {100, 200}
    ensures forall a :: a in EntryAndUser() ==> EntryAndUser()[a] == Bp(true, [NOP])
    ensures forall a :: a in EntryAndUser() ==> a in Calling() && Calling()[a] == INT3
  {
  }

  /** `auto_cont` notes the same call twice, from a session in order: the program has
      executed nothing in between. */
  lemma CountedTwice()
    ensures Consistent(AtMallocEntry()) && LeakSession.Booked(Watching(), AtMallocEntry().bps.Keys, {200})
    ensures LeakHeap.Tracks(Watching(), LeakHeap.NoHeap())
    ensures var envs := [(OtherFirst(), ThenCaller())];
      var (t1, d1, out) := AutoCont(Nops(), Watching(), AtMallocEntry(), Stopped(SIGTRAP, 100), envs);
      t1.pending == map[144 := [CALL, CALL]] && d1 == NotedSession({1}) && out == None
    ensures var envs := [(OtherFirst(), ThenCaller())];
      LeakSession.HiddenActs(Nops(), Watching(), AtMallocEntry(), Stopped(SIGTRAP, 100), envs)
         == [Ran([]), Ran([])]
  {
    FirstNoted();
    ContTwo();
    NotedAgain();
    NothingExecuted();
    EntryInOrder();
    hide OnStop, Cont, Consistent, ContActs, NotedSession, AtMallocEntry, LeakSession.Booked, LeakHeap.Tracks;
    assert [(OtherFirst(), ThenCaller())][1..] == [];
  }
}
