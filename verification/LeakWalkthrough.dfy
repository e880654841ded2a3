/** One concrete call seen by the leak tracker: the conditions of the one-thread theorem can
    be met, and this is what it says there. */
module LeakWalkthrough {
  import opened Words
  import opened Machine
  import opened Engine
  import opened Transparency
  import opened Session
  import opened Solo
  import opened Defects
  import opened Walkthrough
  import opened LeakTracking
  import opened LeakCalls
  import opened LeakRuns
  import opened LeakSolo
  import LeakHeap
  import LeakSession

  /** `malloc` at 100, where the thread stands; the user's breakpoint at 102. */
  function MallocAtFirst(): Tracker {
    Tracker(true, map[], Some(100), None, None, None, map[])
  }

  /** The call of `malloc(0)` that will return to 103. */
  const ASKED: AllocInfo := AllocInfo(0, 103)

  lemma StackBytes(a: Word)
    ensures a < 8 ==> a in Program() && Program()[a] == if a == 0 then 103 else 0
  {
  }

  lemma TopOfStack()
    ensures RangeMapped(Program(), 0, 8) && Top(Program(), 0) == 103
  {
    hide Program;
    forall a: Word | a < 8
      ensures a in Program() && Program()[a] == if a == 0 then 103 else 0
    {
      StackBytes(a);
    }
    SmallWord(Slice(Program(), 0, 8));
  }

  lemma FirstReads()
    ensures ReadWord(AtFirst(), 0) == Some(103)
  {
    FirstView();
    TopOfStack();
    ReadShowsView(AtFirst(), 0, 8);
    hide Program, Patched, Consistent, View, ReadMem, AtFirst;
  }

  lemma FirstReady()
    ensures Ready(MallocAtFirst(), AtFirst())
    ensures CurrentRegs(AtFirst()) == Some(At(100)) && 103 in AtFirst().target.mem && 103 !in AtFirst().bps
  {
    FirstView();
    FirstReads();
    hide ReadWord, CurrentRegs, View, Consistent;
  }

  // ---------- after handling the stop

  /** The session with the call noted: one more breakpoint, at the return address. */
  function NotedFirst(): Dbg {
    SetBp(AtFirst(), 103).0
  }

  lemma FirstHandled()
    ensures OnStop(MallocAtFirst(), AtFirst()) == (AddPending(MallocAtFirst(), 103, 0), NotedFirst(), Some(true))
  {
    FirstReads();
    FirstReady();
    assert SetBp(AtFirst(), 103).1;
    hide SetBp, CurrentRegs, ReadWord, OnStop, AddPending, AtFirst;
    LeakSession.MallocNoted(MallocAtFirst(), AtFirst(), At(100), 103);
  }

  lemma NotedShows()
    ensures var d := NotedFirst();
      && Consistent(d) && View(d) == ProgramAt(100) && d.at == Some(100) && d.threads == [1]
      && d.bps.Keys == {100, 102, 103} && CurrentRegs(d) == Some(At(100)) && CurrentPc(d) == 100
  {
    FirstView();
    FirstKeys();
    assert 103 in AtFirst().target.mem;
    hide Consistent, View, Table;
    SetBpConsistent(AtFirst(), 103);
  }

  lemma NopCandidates(d: Dbg)
    ensures Candidates(Nops(), d, 100) == [101]
  {
    hide ReadMem;
  }

  /** What `IsSteppable` needs to know of the program. */
  lemma NopGoesOn()
    ensures Nops().isa == NopIsa() && 100 in ProgramAt(100).mem && ProgramAt(100).mem[100] != INT3
    ensures var u' := Step(NopIsa(), ProgramAt(100), 1);
      u'.threads.Keys == {1} && u'.threads[1].pc == 101 && 101 in ProgramAt(100).mem
  {
    NopSteps(100);
    hide Step, NopIsa;
  }

  lemma NotedSteps()
    ensures Steppable(Nops(), NotedFirst(), 1) && !Stalls(Nops(), NotedFirst())
  {
    hide Candidates, Consistent, View, CurrentRegs, CurrentPc, Step, Clean, Steppable, Stalls, NopIsa, Nops;
    hide ProgramAt, NotedFirst, Elems, At;
    NotedShows();
    NopGoesOn();
    NopCandidates(NotedFirst());
    NotElems();
    FirstClean(NotedFirst().bps.Keys + Elems([101]) - {100});
    IsSteppable(Nops(), NotedFirst(), 1, ProgramAt(100), 100, [101]);
  }

  lemma NotElems()
    ensures 100 !in Elems([101]) && 101 in [101] && 100 !in [101]
  {
  }

  lemma NotedReady()
    ensures OneThread(Nops(), NotedFirst(), 1, Turns(2), Turns(3))
    ensures LeavesStop(Nops(), NotedFirst(), 1, Turns(2), Turns(3))
  {
    hide Decodable, Consistent, View, Steppable, Stalls, NotedFirst, RunsToStop, NopIsa, Nops, ProgramAt, Solo.After;
    hide OneThread, LeavesStop;
    NotedShows();
    NotedSteps();
    NopsDecode();
    SecondStops({100, 102, 103});
    TwoSteps();
    assert TrapEnv(Turns(2), 1) && |Turns(2).sched| == 2;
    SteppableLeavesStop(Nops(), NotedFirst(), 1, Turns(2), Turns(3));
  }

  // ---------- the hidden run

  /** The stop at the user's breakpoint is not the tracker's. */
  lemma SecondIsUsers(t: Tracker, d: Dbg)
    requires Consistent(d) && View(d) == ProgramAt(102) && d.at == Some(102)
    requires t.malloc == Some(100) && t.calloc.None? && t.realloc.None? && t.free.None? && 102 !in t.pending
    ensures OnStop(t, d) == (t, d, Some(false))
  {
    assert CurrentRegs(d).Some? && CurrentPc(d) == 102;
    hide Consistent, View, CurrentRegs;
  }

  /** One handled stop, and then one that is not the tracker's. */
  ghost predicate OneRound(p: Platform, t: Tracker, d: Dbg, env: (Env, Env), x: Tid) {
    var (t1, d1, handled) := OnStop(t, d);
    && Ready(t, d) && d.at.Some? && d.alive && handled == Some(true) && OneThread(p, d1, x, env.0, env.1)
    && LeavesStop(p, d1, x, env.0, env.1)
    && var (d2, out) := Cont(p, d1, env.0, env.1);
      out.Done? && out.status.Stopped? && OnStop(t1, d2) == (t1, d2, Some(false))
  }

  lemma NotTrackers(p: Platform, t: Tracker, d: Dbg, status: Status, x: Tid)
    requires status.Stopped? && OnStop(t, d) == (t, d, Some(false))
    ensures SoloRun(p, t, d, status, [], x) && AutoCont(p, t, d, status, []) == (t, d, Some(Done(status)))
  {
    hide OnStop;
  }

  lemma OneRoundRuns(p: Platform, t: Tracker, d: Dbg, status: Status, env: (Env, Env), x: Tid)
    requires OneRound(p, t, d, env, x) && status.Stopped?
    ensures SoloRun(p, t, d, status, [env], x)
    ensures var (t1, d1, _) := OnStop(t, d);
      var (d2, out) := Cont(p, d1, env.0, env.1);
      AutoCont(p, t, d, status, [env]) == (t1, d2, Some(out))
  {
    var (t1, d1, _) := OnStop(t, d);
    var (d2, out) := Cont(p, d1, env.0, env.1);
    hide Ready, OnStop, OneThread, LeavesStop, Cont;
    NotTrackers(p, t1, d2, out.status, x);
    RoundRuns(p, t, d, status, env, x);
    RoundEnds(p, t, d, status, env, x);
  }

  lemma RoundRuns(p: Platform, t: Tracker, d: Dbg, status: Status, env: (Env, Env), x: Tid)
    requires OneRound(p, t, d, env, x) && status.Stopped?
    requires var (t1, d1, _) := OnStop(t, d);
      var (d2, out) := Cont(p, d1, env.0, env.1);
      SoloRun(p, t1, d2, out.status, [], x)
    ensures SoloRun(p, t, d, status, [env], x)
  {
    assert [env][1..] == [];
    hide Ready, OnStop, OneThread, LeavesStop, Cont;
  }

  lemma RoundEnds(p: Platform, t: Tracker, d: Dbg, status: Status, env: (Env, Env), x: Tid)
    requires OneRound(p, t, d, env, x) && status.Stopped?
    ensures var (t1, d1, _) := OnStop(t, d);
      var (d2, out) := Cont(p, d1, env.0, env.1);
      AutoCont(p, t, d, status, [env]) == AutoCont(p, t1, d2, out.status, [])
  {
    assert [env][1..] == [];
    hide Ready, OnStop, OneThread, LeavesStop, Cont;
  }

  lemma NoMoreCalls(p: Platform, t: Tracker, d: Dbg, h: LeakHeap.Heap, status: Status)
    requires OnStop(t, d).2 == Some(false)
    ensures CallsMade(p, t, d, h, status, []) == []
  {
  }

  lemma OneRoundCalls(p: Platform, t: Tracker, d: Dbg, h: LeakHeap.Heap, status: Status, env: (Env, Env), x: Tid,
                      user: set<Word>)
    requires Decodable(p.isa) && OneRound(p, t, d, env, x) && status.Stopped?
    requires Consistent(d) && LeakSession.Booked(t, d.bps.Keys, user) && LeakHeap.Tracks(t, h)
    ensures CurrentRegs(d).Some? && Announced(t, d, h).Some?
    ensures CallsMade(p, t, d, h, status, [env]) == [Announced(t, d, h).value]
  {
    assert CurrentRegs(d).Some? && [env][1..] == [];
    var (t1, d1, _) := OnStop(t, d);
    var (d2, out) := Cont(p, d1, env.0, env.1);
    hide Decodable, Consistent, View, OnStop, Cont, GoodCont, OneThread, LeavesStop, LeakHeap.Tracks;
    hide LeakSession.Booked;
    hide Announced, CallsMade, Heard, LeakHeap.After, CurrentRegs;
    CarriedOnceIff(p, t, d, h, x, env.0, env.1, user);
    StopBetween(t, d, h, user);
    CallsUnfold(p, t, d, h, status, [env]);
    HeapByOne(h, Announced(t, d, h).value);
    NoMoreCalls(p, t1, d2, LeakHeap.After(h, Announced(t, d, h).value), out.status);
  }

  lemma NotedWalks()
    ensures var (d2, out) := Cont(Nops(), NotedFirst(), Turns(2), Turns(3));
      out == Done(Stopped(SIGTRAP, 102)) && Consistent(d2) && View(d2) == ProgramAt(102) && d2.at == Some(102)
  {
    hide Consistent, View, Cont, NotedFirst, Steppable, Stalls, Nops, ProgramAt;
    NotedShows();
    NotedSteps();
    WalksOn(NotedFirst(), {100, 102, 103});
  }

  lemma FirstStopsAtUsers()
    ensures var (d2, out) := Cont(Nops(), NotedFirst(), Turns(2), Turns(3));
      var t1 := AddPending(MallocAtFirst(), 103, 0);
      out == Done(Stopped(SIGTRAP, 102)) && OnStop(t1, d2) == (t1, d2, Some(false))
  {
    var t1 := AddPending(MallocAtFirst(), 103, 0);
    assert t1.pending.Keys == {103};
    assert t1.malloc == Some(100) && t1.calloc.None? && t1.realloc.None? && t1.free.None?;
    hide MallocAtFirst, AddPending, Consistent, View, OnStop, Cont, NotedFirst, Nops, ProgramAt;
    NotedWalks();
    SecondIsUsers(t1, Cont(Nops(), NotedFirst(), Turns(2), Turns(3)).0);
  }

  lemma FirstIsRound()
    ensures OneRound(Nops(), MallocAtFirst(), AtFirst(), (Turns(2), Turns(3)), 1)
  {
    FirstReady();
    FirstKeys();
    assert AtFirst().alive;
    hide AtFirst, OnStop, Cont, Ready, OneThread, LeavesStop, NotedFirst, Nops, MallocAtFirst, AddPending, CurrentRegs;
    FirstHandled();
    NotedReady();
    FirstStopsAtUsers();
  }

  lemma FirstInOrder()
    ensures Consistent(AtFirst()) && LeakSession.Booked(MallocAtFirst(), AtFirst().bps.Keys, {102})
    ensures LeakHeap.Tracks(MallocAtFirst(), LeakHeap.NoHeap())
  {
    FirstView();
    FirstKeys();
    hide Consistent;
    assert Entries(MallocAtFirst()) == [100];
    assert Elems([100]) == {100};
  }

  lemma FirstAnnounces()
    ensures CurrentRegs(AtFirst()).Some?
    ensures Announced(MallocAtFirst(), AtFirst(), LeakHeap.NoHeap()) == Some(LeakHeap.Malloc(0, 0, 103))
  {
    FirstView();
    TopOfStack();
    hide View, CurrentRegs, Program, Top;
    assert LeakHeap.NoHeap().calls.Keys == {};
    assert Above({}) == 0;
  }

  lemma OnePending()
    ensures AddPending(MallocAtFirst(), 103, 0).pending == map[103 := [ASKED]]
  {
    assert [] + [ASKED] == [ASKED];
  }

  /** The program calls `malloc(0)` once, from before 103, and that is what the tracker has
      noted when the user's breakpoint is reached. */
  lemma OneCallTracked()
    ensures var envs := [(Turns(2), Turns(3))];
      var (t1, d1, out) := AutoCont(Nops(), MallocAtFirst(), AtFirst(), Stopped(SIGTRAP, 100), envs);
      && SoloRun(Nops(), MallocAtFirst(), AtFirst(), Stopped(SIGTRAP, 100), envs, 1)
      && out == Some(Done(Stopped(SIGTRAP, 102))) && t1.pending == map[103 := [ASKED]]
      && CallsMade(Nops(), MallocAtFirst(), AtFirst(), LeakHeap.NoHeap(), Stopped(SIGTRAP, 100), envs)
         == [LeakHeap.Malloc(0, 0, 103)]
  {
    NopsDecode();
    hide Decodable, NopIsa, Nops, AtFirst, MallocAtFirst, NotedFirst, OnStop, Cont, OneRound, SoloRun;
    hide CallsMade, Announced, Consistent, CurrentRegs, AddPending, LeakSession.Booked, LeakHeap.Tracks;
    hide AutoCont;
    FirstHandled();
    FirstInOrder();
    FirstAnnounces();
    FirstIsRound();
    FirstStopsAtUsers();
    OnePending();
    OneRoundRuns(Nops(), MallocAtFirst(), AtFirst(), Stopped(SIGTRAP, 100), (Turns(2), Turns(3)), 1);
    OneRoundCalls(Nops(), MallocAtFirst(), AtFirst(), LeakHeap.NoHeap(), Stopped(SIGTRAP, 100),
                  (Turns(2), Turns(3)), 1, {102});
  }
}
