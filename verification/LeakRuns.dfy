/** Stops and calls: when a hidden run of the leak tracker handles exactly the allocator
    calls and returns the program makes meanwhile, and when it counts one twice. */
module LeakRuns {
  import opened Words
  import opened Machine
  import opened Engine
  import opened Transparency
  import opened Stops
  import opened Session
  import opened LeakTracking
  import opened LeakHeap
  import opened LeakCalls
  import opened Passes
  import LeakSession

  // ---------- the stop announces an event

  /** The stop is the tracker's, and a call that begins there can be noted. */
  ghost predicate Ready(t: Tracker, d: Dbg) {
    && t.enabled && CurrentRegs(d).Some?
    && var r := CurrentRegs(d).value;
      && WhereIs(t, r.pc) != Elsewhere
      && (LeakSession.AtEntry(WhereIs(t, r.pc)) ==>
            ReadWord(d, r.rsp).Some? && LeakSession.CallFrom(t, d, r, ReadWord(d, r.rsp).value))
  }

  /** What the selected thread's next instruction will mean for the program's heap. */
  ghost function Announced(t: Tracker, d: Dbg, h: Heap): (e: Option<HeapEvent>)
    requires CurrentRegs(d).Some?
    ensures e.Some? ==> Legal(h, e.value)
  {
    var r := CurrentRegs(d).value;
    EventAt(AllocatorOf(t), h, r, Top(View(d).mem, r.rsp))
  }

  lemma WordShown(d: Dbg, a: Word)
    requires Consistent(d)
    ensures ReadWord(d, a).Some? ==> ReadWord(d, a).value == Top(View(d).mem, a)
  {
    ReadShowsView(d, a, 8);
  }

  /** It is the event the tracker reads off registers and stack. */
  lemma AnnouncedShows(t: Tracker, d: Dbg, h: Heap)
    requires Consistent(d) && Tracks(t, h) && Ready(t, d)
    ensures Announced(t, d, h).Some? && LeakSession.Shows(t, d, h, Announced(t, d, h).value)
  {
    var r := CurrentRegs(d).value;
    WordShown(d, r.rsp);
    LeakSession.PendingIff(t, h, r.pc);
    hide Consistent, View, ReadWord, Top, Tracks, CurrentRegs;
    EventRead(t, h, r, Top(View(d).mem, r.rsp));
    hide EventAt;
  }

  /** The event at the PC of `r`, case by case. */
  lemma EventRead(t: Tracker, h: Heap, r: Regs, top: Word)
    requires WhereIs(t, r.pc) != Elsewhere && (r.pc in t.pending <==> InFlight(h, r.pc) != {})
    ensures EventAt(AllocatorOf(t), h, r, top).Some?
    ensures match EventAt(AllocatorOf(t), h, r, top).value
      case Malloc(_, size, site) => WhereIs(t, r.pc) == AtMalloc && size == r.rdi && site == top
      case Calloc(_, count, each, site) =>
        WhereIs(t, r.pc) == AtCalloc && count == r.rdi && each == r.rsi && site == top
      case Realloc(_, ptr, size, site) =>
        WhereIs(t, r.pc) == AtRealloc && ptr == r.rdi && size == r.rsi && site == top
      case Free(ptr) => WhereIs(t, r.pc) == AtFree && ptr == r.rdi
      case Return(id, ptr) =>
        WhereIs(t, r.pc) == AtReturn && ptr == r.rax && id in h.calls && h.calls[id].info.callSite == r.pc
  {
    if InFlight(h, r.pc) != {} {
      assert Above(InFlight(h, r.pc)) - 1 in InFlight(h, r.pc);
    }
    hide Above;
  }

  // ---------- where the tracker's places are armed

  lemma TrackedPlaces(t: Tracker, h: Heap)
    requires PendingOk(t, h)
    ensures Places(AllocatorOf(t), h) <= Elems(Entries(t)) + t.pending.Keys
  {
  }

  /** After handling, the places of the heap to come are armed, and those of the heap so
      far except perhaps the place of the stop. */
  lemma HandledPlaces(t: Tracker, h: Heap, e: HeapEvent, pc: Word, t1: Tracker, armed: set<Word>, user: set<Word>)
    requires PendingOk(t, h) && Legal(h, e)
    requires e.Return? ==> h.calls[e.id].info.callSite == pc
    requires t1 == Track(t, h, e) && PendingOk(t1, LeakHeap.After(h, e)) && LeakSession.Booked(t1, armed, user)
    ensures AllocatorOf(t1) == AllocatorOf(t)
    ensures Places(AllocatorOf(t), LeakHeap.After(h, e)) <= armed
    ensures Places(AllocatorOf(t), h) <= armed + {pc}
  {
    TrackKeeps(t, h, e, pc);
    hide Track;
    TrackedPlaces(t, h);
    TrackedPlaces(t1, LeakHeap.After(h, e));
    hide PendingOk, Places, LeakHeap.After, Elems;
  }

  /** The pending entries count the calls in flight after any event. */
  lemma PendStep(t: Tracker, h: Heap, e: HeapEvent)
    requires Tracks(t, h) && Legal(h, e)
    ensures PendingOk(Track(t, h, e), LeakHeap.After(h, e))
  {
    match e
    case Return(id, ptr) => ReturnPending(t, h, id, ptr);
    case _ => TrackStep(t, h, e);
  }

  /** Tracking an event takes at most the return address it happens at from the pending. */
  lemma TrackKeeps(t: Tracker, h: Heap, e: HeapEvent, pc: Word)
    requires Legal(h, e) && (e.Return? ==> h.calls[e.id].info.callSite == pc && pc in t.pending)
    ensures AllocatorOf(Track(t, h, e)) == AllocatorOf(t)
    ensures t.pending.Keys <= Track(t, h, e).pending.Keys + {pc}
  {
  }

  /** Handling keeps the selected thread, and `at` unless the stop's breakpoint goes. */
  lemma HandledAt(t: Tracker, d: Dbg)
    requires Consistent(d) && d.at.Some? && Ready(t, d)
    ensures var d1 := OnStop(t, d).1;
      && CurrentRegs(d1) == CurrentRegs(d) && d1.threads == d.threads && d1.current == d.current
      && (d1.at.None? ==> CurrentPc(d) !in d1.bps)
  {
    hide ReadWord, PopReturn, Forget;
  }

  // ---------- one `cont`

  /** The instructions executed by the resume that can carry out the announced event: the
      first one, or the only one when the breakpoint is already gone. */
  function Stage(p: Platform, d: Dbg, e1: Env, e2: Env): seq<Tid> {
    if d.at.None? then Executed(p.isa, d, e2)
    else if d.at.value in d.bps then Executed(p.isa, SteppingAt(p, d), e1)
    else []
  }

  lemma TwoActs(c: Allocator, isa: Isa, u: State, first: seq<Tid>, second: seq<Tid>, h: Heap)
    ensures ObserveActs(c, isa, u, [Ran(first), Ran(second)], h)
         == Observe(c, isa, u, first, h)
            + Observe(c, isa, Settle(Run(isa, u, first)), second, HeapBy(h, Observe(c, isa, u, first, h)))
  {
    var acts := [Ran(first), Ran(second)];
    assert acts[1..] == [Ran(second)];
    var es, u1 := Observe(c, isa, u, first, h), Settle(Run(isa, u, first));
    OneAct(c, isa, u1, second, HeapBy(h, es));
    assert ObserveAct(c, isa, u, acts[0], h) == es && Perform(isa, u, acts[0]) == u1;
    hide Observe, HeapBy, Run;
  }

  lemma OneAct(c: Allocator, isa: Isa, u: State, sched: seq<Tid>, h: Heap)
    ensures ObserveActs(c, isa, u, [Ran(sched)], h) == Observe(c, isa, u, sched, h)
  {
    assert [Ran(sched)][1..] == [];
  }

  /** The event is announced at `pc`, and all other places of the heap before and after it
      are armed. */
  ghost predicate Pinned(c: Allocator, h: Heap, e: HeapEvent, pc: Word, armed: set<Word>) {
    && Legal(h, e) && pc in Places(c, h)
    && Places(c, h) <= armed + {pc}
    && Places(c, LeakHeap.After(h, e)) <= armed
  }

  /** What is executed in the stage, off the armed addresses but for the stop's own. */
  lemma StageObserved(c: Allocator, isa: Isa, u: State, sched: seq<Tid>, h: Heap, e: HeapEvent, pc: Word,
                      armed: set<Word>, off: set<Word>)
    requires Pinned(c, h, e, pc, armed) && Clears(isa, u, sched, off) && armed <= off + {pc}
    ensures Observe(c, isa, u, sched, h) == [e] <==> OnlyThis(c, isa, u, sched, pc, h, e)
    ensures Observe(c, isa, u, sched, h) == [] <==> TurnsAt(isa, u, sched, pc) == 0
  {
    hide Places, Clears, Observe, OnlyThis, TurnsAt, LeakHeap.After;
    OnlyThisIff(c, isa, u, sched, h, off, pc, e);
    QuietIff(c, isa, u, sched, h, off, pc);
  }

  lemma FirstObserved(c: Allocator, p: Platform, d: Dbg, h: Heap, e: HeapEvent, e1: Env)
    requires Decodable(p.isa) && Consistent(d) && d.at.Some? && GoodStepI(p, d, e1)
    requires Pinned(c, h, e, d.at.value, d.bps.Keys)
    ensures var pc, u, first := d.at.value, View(d), Executed(p.isa, SteppingAt(p, d), e1);
      && (Observe(c, p.isa, u, first, h) == [e] <==> OnlyThis(c, p.isa, u, first, pc, h, e))
      && (Observe(c, p.isa, u, first, h) == [] <==> TurnsAt(p.isa, u, first, pc) == 0)
  {
    assert d.at.value in d.bps;
    hide Decodable, Consistent, View, GoodStepI, Executed, Clears, Observe, SteppingAt, Pinned, OnlyThis, TurnsAt;
    FirstClears(p, d, e1);
    SteppingShows(p, d);
    StageObserved(c, p.isa, View(d), Executed(p.isa, SteppingAt(p, d), e1), h, e, d.at.value,
                  d.bps.Keys, SteppingAt(p, d).bps.Keys);
  }

  /** After the first resume all places of the heap are armed again: the second one cannot
      carry out any event. */
  lemma SecondQuiet(c: Allocator, p: Platform, d: Dbg, h: Heap, e1: Env, e2: Env, es: seq<HeapEvent>)
    requires Decodable(p.isa) && Consistent(d) && d.at.Some? && GoodCont(p, d, e1, e2) && e1.event.StopEvent?
    requires es == Observe(c, p.isa, View(d), Executed(p.isa, SteppingAt(p, d), e1), h)
    requires Places(c, HeapBy(h, es)) <= d.bps.Keys
    ensures ObserveActs(c, p.isa, View(d), ContActs(p, d, e1, e2), h) == es
  {
    SecondStarts(p, d, e1, e2);
    var first, d1 := Executed(p.isa, SteppingAt(p, d), e1), SteppedOver(p, d, e1);
    hide Decodable, View, GoodCont, Executed, Places, Observe, ObserveActs, SteppingAt, SteppedOver, ContActs, HeapBy;
    StintClears(p.isa, d1, e2);
    hide Consistent;
    Quiet(c, p.isa, View(d1), Executed(p.isa, d1, e2), HeapBy(h, es), d.bps.Keys);
    TwoActs(c, p.isa, View(d), first, Executed(p.isa, d1, e2), h);
  }

  /** Whatever the second resume does comes after what the first one does. */
  lemma FirstComesFirst(c: Allocator, p: Platform, d: Dbg, h: Heap, e1: Env, e2: Env)
    requires Consistent(d) && d.at.Some?
    ensures Observe(c, p.isa, View(d), Executed(p.isa, SteppingAt(p, d), e1), h)
         <= ObserveActs(c, p.isa, View(d), ContActs(p, d, e1, e2), h)
  {
    ActsOf(p, d, e1, e2);
    hide View, Executed, SteppingAt, SteppedOver, ContActs, Observe, ObserveActs, HeapBy, Run;
    TwoActs(c, p.isa, View(d), Executed(p.isa, SteppingAt(p, d), e1), Executed(p.isa, SteppedOver(p, d, e1), e2), h);
  }

  lemma HeapByNone(h: Heap)
    ensures HeapBy(h, []) == h
  {
  }

  lemma NothingAfter(es: seq<HeapEvent>, all: seq<HeapEvent>, e: HeapEvent)
    requires es <= all && (es == [e] || es == [] ==> all == es)
    ensures (all == [e] <==> es == [e]) && (all == [] <==> es == [])
  {
    assert es == all[..|es|];
    assert |es| == |all| ==> es == all;
  }

  lemma PlacesArmed(c: Allocator, h: Heap, e: HeapEvent, es: seq<HeapEvent>, pc: Word, armed: set<Word>)
    requires Pinned(c, h, e, pc, armed) && pc in armed && (es == [e] || es == [])
    ensures Places(c, HeapBy(h, es)) <= armed
  {
    HeapByOne(h, e);
    HeapByNone(h);
    hide Places, LeakHeap.After, HeapBy;
  }

  /** With the stop's breakpoint armed again, one event or none is heard exactly when the
      first resume carries out that event or none. */
  lemma HeardIsFirst(c: Allocator, p: Platform, d: Dbg, h: Heap, e: HeapEvent, e1: Env, e2: Env)
    requires Decodable(p.isa) && Consistent(d) && d.at.Some? && GoodCont(p, d, e1, e2)
    requires Pinned(c, h, e, d.at.value, d.bps.Keys)
    ensures var es := Observe(c, p.isa, View(d), Executed(p.isa, SteppingAt(p, d), e1), h);
      var all := ObserveActs(c, p.isa, View(d), ContRuns(p, d, e1, e2), h);
      (all == [e] <==> es == [e]) && (all == [] <==> es == [])
  {
    OneRun(p, d, e1, e2);
    var first := Executed(p.isa, SteppingAt(p, d), e1);
    assert d.at.value in d.bps;
    hide Decodable, Consistent, View, GoodCont, Executed, Pinned, Places, Observe, ObserveActs, SteppingAt;
    hide ContActs, ContRuns, HeapBy, LeakHeap.After;
    var es := Observe(c, p.isa, View(d), first, h);
    if e1.event.StopEvent? {
      FirstComesFirst(c, p, d, h, e1, e2);
      if es == [e] || es == [] {
        PlacesArmed(c, h, e, es, d.at.value, d.bps.Keys);
        SecondQuiet(c, p, d, h, e1, e2, es);
      }
      NothingAfter(es, ObserveActs(c, p.isa, View(d), ContActs(p, d, e1, e2), h), e);
    } else {
      OneAct(c, p.isa, View(d), first, h);
    }
  }

  /** The stop's breakpoint is gone: there is one resume. */
  lemma OnlyObserved(c: Allocator, p: Platform, d: Dbg, pc: Word, h: Heap, e: HeapEvent, e1: Env, e2: Env)
    requires Decodable(p.isa) && Consistent(d) && d.at.None? && GoodStint(p.isa, d, e2)
    requires Pinned(c, h, e, pc, d.bps.Keys)
    ensures var u, sched := View(d), Executed(p.isa, d, e2);
      var all := ObserveActs(c, p.isa, u, ContRuns(p, d, e1, e2), h);
      && (all == [e] <==> OnlyThis(c, p.isa, u, sched, pc, h, e))
      && (all == [] <==> TurnsAt(p.isa, u, sched, pc) == 0)
  {
    OneRun(p, d, e1, e2);
    var sched := Executed(p.isa, d, e2);
    hide Decodable, View, Executed, Observe, ObserveActs, Pinned, OnlyThis, TurnsAt, Clears;
    StintClears(p.isa, d, e2);
    StageObserved(c, p.isa, View(d), sched, h, e, pc, d.bps.Keys, d.bps.Keys);
    OneAct(c, p.isa, View(d), sched, h);
  }

  /** From a stop at `pc` that announces `e`, for any number of threads: the `cont` makes
      exactly that event of the heap if and only if in the stage the first instruction
      executed at `pc` means `e` and no later one there means an event; and it makes none
      if and only if nothing is executed at `pc` in the stage. */
  lemma StageIff(c: Allocator, p: Platform, d: Dbg, pc: Word, h: Heap, e: HeapEvent, e1: Env, e2: Env)
    requires Decodable(p.isa) && Consistent(d) && GoodCont(p, d, e1, e2)
    requires Pinned(c, h, e, pc, d.bps.Keys) && (d.at.Some? ==> d.at.value == pc)
    ensures var u, stage := View(d), Stage(p, d, e1, e2);
      var all := ObserveActs(c, p.isa, u, ContRuns(p, d, e1, e2), h);
      && (all == [e] <==> OnlyThis(c, p.isa, u, stage, pc, h, e))
      && (all == [] <==> TurnsAt(p.isa, u, stage, pc) == 0)
  {
    assert d.at.Some? ==> pc in d.bps;
    hide Decodable, Consistent, View, GoodStint, GoodStep, Executed, Observe, ObserveActs, SteppingAt;
    hide ContRuns, Pinned, OnlyThis, TurnsAt, TableOk;
    if d.at.Some? {
      FirstObserved(c, p, d, h, e, e1);
      HeardIsFirst(c, p, d, h, e, e1, e2);
    } else {
      OnlyObserved(c, p, d, pc, h, e, e1, e2);
    }
  }

  /** From a stop at an armed entry point, the calls that begin are the executions of the
      stage there, one for each: none and the stop stands, more than one and calls pass
      that no stop reports. From any other stop no call begins. */
  lemma CallsCounted(c: Allocator, p: Platform, d: Dbg, pc: Word, h: Heap, e1: Env, e2: Env)
    requires Decodable(p.isa) && Consistent(d) && GoodCont(p, d, e1, e2) && EntriesIn(c) <= d.bps.Keys
    requires d.at.Some? ==> d.at.value == pc
    ensures CallsIn(ObserveActs(c, p.isa, View(d), ContRuns(p, d, e1, e2), h))
         == if pc in EntriesIn(c) then TurnsAt(p.isa, View(d), Stage(p, d, e1, e2), pc) else 0
  {
    OneRun(p, d, e1, e2);
    assert d.at.Some? ==> d.at.value in d.bps;
    hide Decodable, Consistent, View, GoodStint, GoodStep, Executed, EntriesIn, CallsIn, Observe, ObserveActs;
    hide SteppingAt, ContActs, TurnsAt, TableOk;
    if d.at.None? {
      StintCalls(c, p, d, pc, h, e2);
      OneAct(c, p.isa, View(d), Executed(p.isa, d, e2), h);
    } else {
      FirstCalls(c, p, d, h, e1);
      if e1.event.StopEvent? {
        SecondCalls(c, p, d, h, e1, e2);
      } else {
        OneAct(c, p.isa, View(d), Executed(p.isa, SteppingAt(p, d), e1), h);
      }
    }
  }

  lemma StintCalls(c: Allocator, p: Platform, d: Dbg, pc: Word, h: Heap, env: Env)
    requires Decodable(p.isa) && Consistent(d) && GoodStint(p.isa, d, env) && EntriesIn(c) <= d.bps.Keys
    ensures var sched := Executed(p.isa, d, env);
      CallsIn(Observe(c, p.isa, View(d), sched, h))
      == if pc in EntriesIn(c) then TurnsAt(p.isa, View(d), sched, pc) else 0
  {
    hide Decodable, View, Executed, Clears, Observe, EntriesIn, CallsIn, TurnsAt;
    StintClears(p.isa, d, env);
    CallsAreTurns(c, p.isa, View(d), Executed(p.isa, d, env), h, d.bps.Keys, pc);
  }

  lemma FirstCalls(c: Allocator, p: Platform, d: Dbg, h: Heap, e1: Env)
    requires Decodable(p.isa) && Consistent(d) && d.at.Some? && GoodStepI(p, d, e1) && EntriesIn(c) <= d.bps.Keys
    ensures var pc, first := d.at.value, Executed(p.isa, SteppingAt(p, d), e1);
      CallsIn(Observe(c, p.isa, View(d), first, h))
      == if pc in EntriesIn(c) then TurnsAt(p.isa, View(d), first, pc) else 0
  {
    assert d.at.value in d.bps;
    hide Decodable, Consistent, View, GoodStepI, Executed, Clears, Observe, SteppingAt, EntriesIn, CallsIn, TurnsAt;
    hide TableOk;
    FirstClears(p, d, e1);
    SteppingShows(p, d);
    CallsAreTurns(c, p.isa, View(d), Executed(p.isa, SteppingAt(p, d), e1), h, SteppingAt(p, d).bps.Keys, d.at.value);
  }

  /** In the second resume every entry point is armed again, and no call begins. */
  lemma SecondCalls(c: Allocator, p: Platform, d: Dbg, h: Heap, e1: Env, e2: Env)
    requires Decodable(p.isa) && Consistent(d) && d.at.Some? && GoodCont(p, d, e1, e2) && e1.event.StopEvent?
    requires EntriesIn(c) <= d.bps.Keys
    ensures CallsIn(ObserveActs(c, p.isa, View(d), ContActs(p, d, e1, e2), h))
         == CallsIn(Observe(c, p.isa, View(d), Executed(p.isa, SteppingAt(p, d), e1), h))
  {
    SecondStarts(p, d, e1, e2);
    var first, d1 := Executed(p.isa, SteppingAt(p, d), e1), SteppedOver(p, d, e1);
    assert d.at.value in d.bps;
    hide Decodable, View, GoodCont, Executed, EntriesIn, CallsIn, Observe, ObserveActs, SteppingAt, SteppedOver;
    hide ContActs, Clears;
    StintClears(p.isa, d1, e2);
    hide Consistent;
    TwoCalls(c, p.isa, View(d), first, Executed(p.isa, d1, e2), h, d.bps.Keys, d.at.value);
  }

  lemma TwoCalls(c: Allocator, isa: Isa, u: State, first: seq<Tid>, second: seq<Tid>, h: Heap, off: set<Word>, pc: Word)
    requires Clears(isa, Settle(Run(isa, u, first)), second, off) && EntriesIn(c) <= off && pc in off
    ensures CallsIn(ObserveActs(c, isa, u, [Ran(first), Ran(second)], h)) == CallsIn(Observe(c, isa, u, first, h))
  {
    var es, u1 := Observe(c, isa, u, first, h), Settle(Run(isa, u, first));
    hide EntriesIn, CallsIn, Observe, ObserveActs, HeapBy, TurnsAt, Clears, Run;
    CallsAreTurns(c, isa, u1, second, HeapBy(h, es), off, pc);
    ClearsNone(isa, u1, second, off, pc);
    TwoActs(c, isa, u, first, second, h);
    CallsInConcat(es, Observe(c, isa, u1, second, HeapBy(h, es)));
  }

  /** A thread that does not run in the first resume stands where it stood when `cont`
      returns, with the same registers, in front of the breakpoint armed again: its stop
      can be reported a second time. */
  lemma NotRunRepeats(p: Platform, d: Dbg, x: Tid, e1: Env, e2: Env)
    requires Decodable(p.isa) && Consistent(d) && d.at.Some? && GoodCont(p, d, e1, e2) && Survives(d, e1, e2)
    requires x in d.target.threads && d.target.threads[x].pc == d.at.value && x !in Stage(p, d, e1, e2)
    ensures var d' := Cont(p, d, e1, e2).0;
      && d'.alive && d.at.value in d'.bps
      && x in d'.target.threads && d'.target.threads[x] == d.target.threads[x]
  {
    SecondStarts(p, d, e1, e2);
    ContTransparent(p, d, e1, e2);
    var first, d1 := Executed(p.isa, SteppingAt(p, d), e1), SteppedOver(p, d, e1);
    var u1 := Settle(Run(p.isa, View(d), first));
    var d' := Cont(p, d, e1, e2).0;
    assert View(d').threads == d'.target.threads && View(d).threads == d.target.threads;
    hide Decodable, Consistent, View, GoodCont, Executed, SteppingAt, SteppedOver, ContActs, Cont, Run;
    Idle(p.isa, View(d), x, first);
    StintClears(p.isa, d1, e2);
    Parked(p.isa, u1, x, Executed(p.isa, d1, e2), d.bps.Keys);
    Idle(p.isa, u1, x, Executed(p.isa, d1, e2));
    ReplayTwo(p.isa, View(d), first, Executed(p.isa, d1, e2));
  }

  lemma ReplayTwo(isa: Isa, u: State, first: seq<Tid>, second: seq<Tid>)
    ensures Replay(isa, u, [Ran(first), Ran(second)]) == Settle(Run(isa, Settle(Run(isa, u, first)), second))
  {
    assert [Ran(first), Ran(second)] == [Ran(first)] + [Ran(second)];
    ReplayConcat(isa, u, [Ran(first)], [Ran(second)]);
    ReplayOne(isa, u, Ran(first));
    ReplayOne(isa, Settle(Run(isa, u, first)), Ran(second));
  }

  // ---------- the exact condition for one stop

  /** The allocator calls and returns in one `cont` from the handled stop. */
  ghost function Heard(p: Platform, t: Tracker, d: Dbg, h: Heap, e1: Env, e2: Env): seq<HeapEvent>
    requires Consistent(OnStop(t, d).1)
  {
    var d1 := OnStop(t, d).1;
    ObserveActs(AllocatorOf(t), p.isa, View(d1), ContRuns(p, d1, e1, e2), h)
  }

  /** The tracker and the session between handling the stop and resuming. */
  ghost predicate Between(t: Tracker, d: Dbg, h: Heap, e: HeapEvent, user: set<Word>) {
    var (t1, d1, handled) := OnStop(t, d);
    && handled == Some(true)
    && Consistent(d1) && View(d1) == View(d) && LeakSession.Booked(t1, d1.bps.Keys, user)
    && CurrentRegs(d1) == CurrentRegs(d) && d1.threads == d.threads && d1.current == d.current
    && (d1.at.None? ==> CurrentPc(d) !in d1.bps)
    && AllocatorOf(t1) == AllocatorOf(t)
    && Pinned(AllocatorOf(t), h, e, CurrentPc(d), d1.bps.Keys)
  }

  /** The announced event happens at a place of the heap. */
  lemma AnnouncedHere(t: Tracker, d: Dbg, h: Heap)
    requires CurrentRegs(d).Some? && Announced(t, d, h).Some?
    ensures CurrentPc(d) in Places(AllocatorOf(t), h)
  {
    var r := CurrentRegs(d).value;
    assert CurrentPc(d) == r.pc;
    hide CurrentRegs, CurrentPc, View, Top, EventAt, Places;
    if r.pc !in Places(AllocatorOf(t), h) {
      NoEventElsewhere(AllocatorOf(t), h, r, Top(View(d).mem, r.rsp));
    }
  }

  /** A return shown is one to the place of the stop. */
  lemma ShownReturn(t: Tracker, d: Dbg, h: Heap, e: HeapEvent)
    requires Legal(h, e) && LeakSession.Shows(t, d, h, e)
    ensures CurrentRegs(d).Some? && (e.Return? ==> h.calls[e.id].info.callSite == CurrentPc(d))
  {
    hide ReadWord;
  }

  lemma StopBetween(t: Tracker, d: Dbg, h: Heap, user: set<Word>)
    requires Consistent(d) && LeakSession.Booked(t, d.bps.Keys, user) && Tracks(t, h)
    requires Ready(t, d) && d.at.Some?
    ensures Announced(t, d, h).Some? && Between(t, d, h, Announced(t, d, h).value, user)
    ensures OnStop(t, d).0 == Track(t, h, Announced(t, d, h).value)
  {
    assert CurrentRegs(d).Some?;
    hide Consistent, View, OnStop, Ready, Announced, LeakSession.Shows, Places, LeakHeap.After, Track;
    hide LeakSession.Booked, CurrentRegs, CurrentPc;
    AnnouncedShows(t, d, h);
    HandledAt(t, d);
    var e := Announced(t, d, h).value;
    ShownReturn(t, d, h, e);
    AnnouncedHere(t, d, h);
    LeakSession.StopIsTracked(t, d, h, e);
    LeakSession.HandlingIsInvisible(t, d, user);
    PendStep(t, h, e);
    HandledPlaces(t, h, e, CurrentPc(d), OnStop(t, d).0, OnStop(t, d).1.bps.Keys, user);
  }

  /** How often the stage of the `cont` after the handled stop executes the instruction
      the stop is at. */
  function TurnsAtStop(p: Platform, t: Tracker, d: Dbg, e1: Env, e2: Env): nat {
    var d1 := OnStop(t, d).1;
    TurnsAt(p.isa, View(d1), Stage(p, d1, e1, e2), CurrentPc(d))
  }

  /** The first execution there means `e`, and no later one means an event. */
  ghost predicate CarriedOut(p: Platform, t: Tracker, d: Dbg, h: Heap, e: HeapEvent, e1: Env, e2: Env) {
    var d1 := OnStop(t, d).1;
    OnlyThis(AllocatorOf(t), p.isa, View(d1), Stage(p, d1, e1, e2), CurrentPc(d), h, e)
  }

  /** Any number of threads: from a handled stop, `cont` makes exactly the event the tracker
      has just noted if and only if that is the one the stage carries out; it makes none if
      and only if the stage executes nothing at the stop, and then the stopped thread has
      not run. From a stop at an entry point the calls made are the executions there, and
      from a stop at a return address there are none. */
  lemma CarriedIff(p: Platform, t: Tracker, d: Dbg, h: Heap, e1: Env, e2: Env, user: set<Word>)
    requires Decodable(p.isa) && Consistent(d) && LeakSession.Booked(t, d.bps.Keys, user) && Tracks(t, h)
    requires Ready(t, d) && d.at.Some? && GoodCont(p, OnStop(t, d).1, e1, e2)
    ensures Consistent(OnStop(t, d).1) && Announced(t, d, h).Some?
    ensures var e, heard := Announced(t, d, h).value, Heard(p, t, d, h, e1, e2);
      && (heard == [e] <==> CarriedOut(p, t, d, h, e, e1, e2))
      && (heard == [] <==> TurnsAtStop(p, t, d, e1, e2) == 0)
      && (heard == [] ==> d.threads[d.current] !in Stage(p, OnStop(t, d).1, e1, e2))
      && CallsIn(heard) == if WhereIs(t, CurrentPc(d)) != AtReturn then TurnsAtStop(p, t, d, e1, e2) else 0
  {
    StopBetween(t, d, h, user);
    var d1, r := OnStop(t, d).1, CurrentRegs(d).value;
    var e, stage := Announced(t, d, h).value, Stage(p, d1, e1, e2);
    SelectedRuns(d, d.threads[d.current], r);
    SelectedAt(d1, r);
    hide Decodable, View, OnStop, Ready, GoodCont, Consistent, Pinned, Tracks, LeakSession.Booked, Stage;
    hide ContRuns, ObserveActs, OnlyThis, TurnsAt, CallsIn, Announced, CurrentRegs, CurrentPc;
    StageIff(AllocatorOf(t), p, d1, r.pc, h, e, e1, e2);
    if d.threads[d.current] in stage {
      RunnerPasses(p.isa, View(d1), d.threads[d.current], stage, r.pc);
    }
    EntriesArmed(t, OnStop(t, d).0, d1.bps.Keys, user);
    EntryIff(t, r.pc);
    CallsCounted(AllocatorOf(t), p, d1, r.pc, h, e1, e2);
  }

  /** The entry points stay armed. */
  lemma EntriesArmed(t: Tracker, t1: Tracker, armed: set<Word>, user: set<Word>)
    requires AllocatorOf(t1) == AllocatorOf(t) && LeakSession.Booked(t1, armed, user)
    ensures EntriesIn(AllocatorOf(t)) <= armed
  {
    assert Entries(t) == Entries(t1);
    hide Listed;
  }

  lemma EntryIff(t: Tracker, pc: Word)
    requires WhereIs(t, pc) != Elsewhere
    ensures pc in EntriesIn(AllocatorOf(t)) <==> WhereIs(t, pc) != AtReturn
  {
    EntryListed(AllocatorOf(t), pc);
  }

  lemma SelectedRuns(d: Dbg, x: Tid, r: Regs)
    requires CurrentRegs(d) == Some(r) && x == d.threads[d.current]
    ensures Runs(View(d), x) && View(d).threads[x] == r && CurrentPc(d) == r.pc
  {
  }

  lemma SelectedAt(d1: Dbg, r: Regs)
    requires Consistent(d1) && CurrentRegs(d1) == Some(r)
    ensures d1.at.Some? ==> d1.at.value == r.pc
  {
  }

  // ---------- whole hidden runs

  /** At every stop that is the tracker's, the event it announces is carried out in the
      `cont` that follows, and no other; the run ends in a stop that is not the tracker's. */
  ghost predicate AllCarried(p: Platform, t: Tracker, d: Dbg, h: Heap, status: Status, envs: seq<(Env, Env)>)
    decreases |envs|
  {
    if !status.Stopped? || !d.alive || OnStop(t, d).2 == Some(false) then true
    else
      var (t1, d1, _) := OnStop(t, d);
      && Ready(t, d) && d.at.Some? && envs != []
      && Consistent(d1) && GoodCont(p, d1, envs[0].0, envs[0].1)
      && Announced(t, d, h).Some?
      && CarriedOut(p, t, d, h, Announced(t, d, h).value, envs[0].0, envs[0].1)
      && var (d2, out) := Cont(p, d1, envs[0].0, envs[0].1);
        out.Done? ==> AllCarried(p, t1, d2, LeakHeap.After(h, Announced(t, d, h).value), out.status, envs[1..])
  }

  /** What the unpatched program executes during a hidden run, the last `cont` included
      when the target ends in its step-over. */
  ghost function HiddenRuns(p: Platform, t: Tracker, d: Dbg, status: Status, envs: seq<(Env, Env)>): seq<Act>
    decreases |envs|
  {
    var (t1, d1, handled) := OnStop(t, d);
    if !status.Stopped? || handled != Some(true) || envs == [] || !Consistent(d1) then []
    else
      var (d2, out) := Cont(p, d1, envs[0].0, envs[0].1);
      ContRuns(p, d1, envs[0].0, envs[0].1)
      + (if out.Done? then HiddenRuns(p, t1, d2, out.status, envs[1..]) else [])
  }

  /** The allocator calls and returns the program makes during a hidden run. */
  ghost function CallsMade(p: Platform, t: Tracker, d: Dbg, h: Heap, status: Status,
                           envs: seq<(Env, Env)>): seq<HeapEvent> {
    ObserveActs(AllocatorOf(t), p.isa, View(d), HiddenRuns(p, t, d, status, envs), h)
  }

  /** A `cont` that reports an outcome has made both its runs. */
  lemma ContEnds(p: Platform, d: Dbg, e1: Env, e2: Env)
    requires Decodable(p.isa) && Consistent(d) && GoodCont(p, d, e1, e2)
    ensures var (d2, out) := Cont(p, d, e1, e2);
      && (out.Done? ==>
            && (out.status.Stopped? <==> d2.alive) && d2.bps.Keys == d.bps.Keys
            && ContRuns(p, d, e1, e2) == ContActs(p, d, e1, e2))
      && (d2.alive ==> out.Done? && Consistent(d2) && View(d2) == Replay(p.isa, View(d), ContRuns(p, d, e1, e2)))
  {
    hide Cont, GoodCont, Consistent, View, ContActs, StepIActs, Replay;
    ContTransparent(p, d, e1, e2);
  }

  lemma OverRuns(p: Platform, t: Tracker, d: Dbg, status: Status, envs: seq<(Env, Env)>)
    requires !status.Stopped?
    ensures HiddenRuns(p, t, d, status, envs) == []
  {
  }

  /** The events of the rest of a hidden run, after its first `cont`. */
  ghost function CallsAfter(p: Platform, t: Tracker, d: Dbg, h: Heap, envs: seq<(Env, Env)>): seq<HeapEvent>
    requires envs != []
  {
    var (t1, d1, _) := OnStop(t, d);
    var (d2, out) := Cont(p, d1, envs[0].0, envs[0].1);
    if out.Done? then CallsMade(p, t1, d2, h, out.status, envs[1..]) else []
  }

  /** The events of a hidden run are those of its first `cont` and those of the rest. */
  lemma CallsUnfold(p: Platform, t: Tracker, d: Dbg, h: Heap, status: Status, envs: seq<(Env, Env)>)
    requires Decodable(p.isa) && status.Stopped? && OnStop(t, d).2 == Some(true) && envs != []
    requires Consistent(OnStop(t, d).1) && View(OnStop(t, d).1) == View(d)
    requires AllocatorOf(OnStop(t, d).0) == AllocatorOf(t)
    requires GoodCont(p, OnStop(t, d).1, envs[0].0, envs[0].1)
    ensures var es := Heard(p, t, d, h, envs[0].0, envs[0].1);
      CallsMade(p, t, d, h, status, envs) == es + CallsAfter(p, t, d, HeapBy(h, es), envs)
  {
    var (t1, d1, _) := OnStop(t, d);
    var (d2, out) := Cont(p, d1, envs[0].0, envs[0].1);
    var first := ContRuns(p, d1, envs[0].0, envs[0].1);
    var rest := if out.Done? then HiddenRuns(p, t1, d2, out.status, envs[1..]) else [];
    var c, h1 := AllocatorOf(t), HeapBy(h, Heard(p, t, d, h, envs[0].0, envs[0].1));
    assert HiddenRuns(p, t, d, status, envs) == first + rest;
    ContEnds(p, d1, envs[0].0, envs[0].1);
    hide Decodable, Consistent, View, OnStop, Cont, GoodCont, ContRuns, ContActs, AllocatorOf;
    hide HiddenRuns, ObserveActs, Replay, HeapBy;
    ObserveConcat(c, p.isa, View(d), first, rest, h);
    if !d2.alive {
      if out.Done? {
        OverRuns(p, t1, d2, out.status, envs[1..]);
      }
      ObserveNone(c, p.isa, Replay(p.isa, View(d), first), h1);
      ObserveNone(c, p.isa, View(d2), h1);
    }
  }

  lemma ObserveNone(c: Allocator, isa: Isa, u: State, h: Heap)
    ensures ObserveActs(c, isa, u, [], h) == []
  {
  }

  /** Then the stops trace the calls the program makes, one for one. */
  lemma {:induction false} CarriedTraces(p: Platform, t: Tracker, d: Dbg, h: Heap, status: Status,
                                         envs: seq<(Env, Env)>, user: set<Word>)
    requires Decodable(p.isa) && Tracks(t, h) && AllCarried(p, t, d, h, status, envs)
    requires status.Stopped? ==> d.alive
    requires d.alive ==> Consistent(d) && LeakSession.Booked(t, d.bps.Keys, user)
    requires Plausible(h, CallsMade(p, t, d, h, status, envs))
    ensures LeakSession.Traces(p, t, d, h, status, envs, CallsMade(p, t, d, h, status, envs))
    decreases |envs|
  {
    if !status.Stopped? || OnStop(t, d).2 == Some(false) {
      assert HiddenRuns(p, t, d, status, envs) == [];
    } else {
      var (t1, d1, _) := OnStop(t, d);
      var e := Announced(t, d, h).value;
      var (d2, out) := Cont(p, d1, envs[0].0, envs[0].1);
      AnnouncedShows(t, d, h);
      hide Decodable, Consistent, View, OnStop, Cont, GoodCont, Tracks, LeakSession.Booked, LeakSession.Shows;
      hide Ready, Announced, CallsMade, Heard, LeakHeap.After, CurrentRegs;
      hide CarriedOut, TurnsAtStop, CallsIn, CurrentPc, Stage, WhereIs, HeapBy, ContRuns, ContActs;
      LeakSession.StopIsTracked(t, d, h, e);
      LeakSession.HandlingIsInvisible(t, d, user);
      TrackAllocator(t, h, e);
      CarriedIff(p, t, d, h, envs[0].0, envs[0].1, user);
      CallsUnfold(p, t, d, h, status, envs);
      HeapByOne(h, e);
      var es := CallsMade(p, t, d, h, status, envs);
      assert es[0] == e && es[1..] == CallsAfter(p, t, d, LeakHeap.After(h, e), envs);
      TrackStep(t, h, e);
      ContEnds(p, d1, envs[0].0, envs[0].1);
      if out.Done? {
        CarriedTraces(p, t1, d2, LeakHeap.After(h, e), out.status, envs[1..], user);
      }
    }
  }

  lemma TrackAllocator(t: Tracker, h: Heap, e: HeapEvent)
    requires Legal(h, e) && Tracks(t, h)
    ensures AllocatorOf(Track(t, h, e)) == AllocatorOf(t)
  {
  }

  /** Over a whole hidden run the tracker's tables are those of the heap the program has
      made, read off the instructions it executed, if each stop is carried out once. */
  lemma CallsAreStops(p: Platform, t: Tracker, d: Dbg, h: Heap, status: Status, envs: seq<(Env, Env)>, user: set<Word>)
    requires Decodable(p.isa) && Tracks(t, h) && AllCarried(p, t, d, h, status, envs)
    requires status.Stopped? ==> d.alive
    requires d.alive ==> Consistent(d) && LeakSession.Booked(t, d.bps.Keys, user)
    requires Plausible(h, CallsMade(p, t, d, h, status, envs))
    ensures var es, t1 := CallsMade(p, t, d, h, status, envs), AutoCont(p, t, d, status, envs).0;
      t1 == TrackAll(t, h, es) && Tracks(t1, HeapAfter(h, es))
  {
    CarriedTraces(p, t, d, h, status, envs, user);
    hide CallsMade, AllCarried, Tracks, Consistent, LeakSession.Booked, LeakSession.Traces, AutoCont;
    hide Plausible, HeapAfter, TrackAll;
    LeakSession.TrackedRun(p, t, d, h, status, envs, CallsMade(p, t, d, h, status, envs), user);
  }
}
