/** The allocator calls the program makes, read off its own run, and when the stop the
    leak tracker handles stands for exactly one of them. */
module LeakCalls {
  import opened Words
  import opened Machine
  import opened Engine
  import opened Session
  import opened LeakTracking
  import opened LeakHeap
  import opened Passes
  import Frames

  // ---------- what an executed instruction means for the heap

  datatype Allocator = Allocator(malloc: Option<Word>, calloc: Option<Word>, realloc: Option<Word>, free: Option<Word>)

  function AllocatorOf(t: Tracker): Allocator {
    Allocator(t.malloc, t.calloc, t.realloc, t.free)
  }

  function Top(mem: Memory, a: Word): Word {
    if RangeMapped(mem, a, 8) then Frames.WordAt(mem, a) else 0
  }

  /** A number above all in `ids`, and next above the largest. */
  ghost function Above(ids: set<nat>): (n: nat)
    ensures forall i :: i in ids ==> i < n
    ensures ids != {} ==> n > 0 && n - 1 in ids
  {
    if ids == {} then 0
    else
      var i :| i in ids;
      var n := Above(ids - {i});
      assert forall j :: j in ids ==> j == i || j in ids - {i};
      if i < n then n else i + 1
  }

  /** Executing the instruction at an entry point is a call; executing the one at the
      return address of a call in flight is the return of the newest such call. */
  ghost function EventAt(c: Allocator, h: Heap, r: Regs, top: Word): (e: Option<HeapEvent>)
    ensures e.Some? ==> Legal(h, e.value)
  {
    if c.malloc == Some(r.pc) then Some(Malloc(Above(h.calls.Keys), r.rdi, top))
    else if c.calloc == Some(r.pc) then Some(Calloc(Above(h.calls.Keys), r.rdi, r.rsi, top))
    else if c.realloc == Some(r.pc) then Some(Realloc(Above(h.calls.Keys), r.rdi, r.rsi, top))
    else if c.free == Some(r.pc) then Some(Free(r.rdi))
    else if InFlight(h, r.pc) != {} then Some(Return(Above(InFlight(h, r.pc)) - 1, r.rax))
    else None
  }

  /** The addresses at which an instruction can mean something for the heap. */
  ghost function Places(c: Allocator, h: Heap): set<Word> {
    Elems(EntriesOf(c.malloc, c.calloc, c.realloc, c.free)) + (set id | id in h.calls :: h.calls[id].info.callSite)
  }

  lemma NoEventElsewhere(c: Allocator, h: Heap, r: Regs, top: Word)
    requires r.pc !in Places(c, h)
    ensures EventAt(c, h, r, top) == None
  {
    var entries := EntriesOf(c.malloc, c.calloc, c.realloc, c.free);
    assert forall a :: a in entries ==> a in Places(c, h);
    assert c.malloc.Some? ==> entries[0] == c.malloc.value;
    assert forall a ::
      a in Listed(c.malloc) || a in Listed(c.calloc) || a in Listed(c.realloc) || a in Listed(c.free) ==> a in entries;
    assert forall o: Option<Word> :: o.Some? ==> Listed(o)[0] == o.value;
  }

  ghost function Turn(c: Allocator, u: State, x: Tid, h: Heap): (e: Option<HeapEvent>)
    ensures e.Some? ==> Legal(h, e.value)
  {
    if Runs(u, x) then EventAt(c, h, u.threads[x], Top(u.mem, u.threads[x].rsp)) else None
  }

  /** The allocator calls and returns in a run of the program. */
  ghost function Observe(c: Allocator, isa: Isa, u: State, sched: seq<Tid>, h: Heap): seq<HeapEvent>
    decreases |sched|
  {
    if sched == [] then []
    else
      var u1 := Step(isa, u, sched[0]);
      match Turn(c, u, sched[0], h)
      case Some(e) => [e] + Observe(c, isa, u1, sched[1..], After(h, e))
      case None => Observe(c, isa, u1, sched[1..], h)
  }

  ghost function HeapBy(h: Heap, es: seq<HeapEvent>): Heap
    decreases |es|
  {
    if es == [] then h else HeapBy(if Legal(h, es[0]) then After(h, es[0]) else h, es[1..])
  }

  ghost function ObserveAct(c: Allocator, isa: Isa, u: State, act: Act, h: Heap): seq<HeapEvent> {
    if act.Ran? then Observe(c, isa, u, act.sched, h) else []
  }

  /** The same over a whole history of the program. */
  ghost function ObserveActs(c: Allocator, isa: Isa, u: State, acts: seq<Act>, h: Heap): seq<HeapEvent>
    decreases |acts|
  {
    if acts == [] then []
    else
      var es := ObserveAct(c, isa, u, acts[0], h);
      es + ObserveActs(c, isa, Perform(isa, u, acts[0]), acts[1..], HeapBy(h, es))
  }

  lemma {:induction false} HeapByConcat(h: Heap, es: seq<HeapEvent>, fs: seq<HeapEvent>)
    ensures HeapBy(h, es + fs) == HeapBy(HeapBy(h, es), fs)
    decreases |es|
  {
    if es == [] {
      assert es + fs == fs;
    } else {
      assert (es + fs)[0] == es[0] && (es + fs)[1..] == es[1..] + fs;
      HeapByConcat(if Legal(h, es[0]) then After(h, es[0]) else h, es[1..], fs);
    }
  }

  lemma {:induction false} ObserveConcat(c: Allocator, isa: Isa, u: State, a: seq<Act>, b: seq<Act>, h: Heap)
    ensures ObserveActs(c, isa, u, a + b, h)
         == ObserveActs(c, isa, u, a, h)
            + ObserveActs(c, isa, Replay(isa, u, a), b, HeapBy(h, ObserveActs(c, isa, u, a, h)))
    decreases |a|
  {
    if a == [] {
      assert a + b == b;
    } else {
      assert (a + b)[0] == a[0] && (a + b)[1..] == a[1..] + b;
      var es, u1 := ObserveAct(c, isa, u, a[0], h), Perform(isa, u, a[0]);
      var h1 := HeapBy(h, es);
      ObserveConcat(c, isa, u1, a[1..], b, h1);
      HeapByConcat(h, es, ObserveActs(c, isa, u1, a[1..], h1));
    }
  }

  lemma HeapByOne(h: Heap, e: HeapEvent)
    requires Legal(h, e)
    ensures HeapBy(h, [e]) == After(h, e)
  {
    assert [e][1..] == [];
  }

  lemma {:induction false} Quiet(c: Allocator, isa: Isa, u: State, sched: seq<Tid>, h: Heap, off: set<Word>)
    requires Clears(isa, u, sched, off) && Places(c, h) <= off
    ensures Observe(c, isa, u, sched, h) == []
    decreases |sched|
  {
    if sched != [] {
      hide Places, EventAt, Step;
      NoEventElsewhere(c, h, u.threads[sched[0]], Top(u.mem, u.threads[sched[0]].rsp));
      Quiet(c, isa, Step(isa, u, sched[0]), sched[1..], h, off);
    }
  }

  // ---------- one call

  /** The first instruction the run executes at `pc` means event `e`; if an execution there
      would mean an event again, there is none. */
  ghost predicate OnlyThis(c: Allocator, isa: Isa, u: State, sched: seq<Tid>, pc: Word, h: Heap, e: HeapEvent)
    decreases |sched|
  {
    sched != [] &&
    var y, u1 := sched[0], Step(isa, u, sched[0]);
    if Runs(u, y) && u.threads[y].pc == pc then
      Turn(c, u, y, h) == Some(e) && (pc in Places(c, After(h, e)) ==> TurnsAt(isa, u1, sched[1..], pc) == 0)
    else OnlyThis(c, isa, u1, sched[1..], pc, h, e)
  }

  lemma PlaceIsEvent(c: Allocator, h: Heap, r: Regs, top: Word)
    requires r.pc in Places(c, h)
    ensures EventAt(c, h, r, top).Some?
  {
    if id :| id in h.calls && h.calls[id].info.callSite == r.pc {
      assert id in InFlight(h, r.pc);
    }
  }

  /** Where all places but `pc` are kept off, nothing happens to the heap exactly when
      nothing that counts is executed at `pc`. */
  lemma {:induction false} QuietIff(c: Allocator, isa: Isa, u: State, sched: seq<Tid>, h: Heap,
                                    off: set<Word>, pc: Word)
    requires Clears(isa, u, sched, off) && Places(c, h) <= off + {pc}
    ensures Observe(c, isa, u, sched, h) == [] <==> (pc in Places(c, h) ==> TurnsAt(isa, u, sched, pc) == 0)
    decreases |sched|
  {
    hide Places, EventAt, Step;
    if sched != [] {
      var r := u.threads[sched[0]];
      if r.pc in Places(c, h) {
        PlaceIsEvent(c, h, r, Top(u.mem, r.rsp));
      } else {
        NoEventElsewhere(c, h, r, Top(u.mem, r.rsp));
        QuietIff(c, isa, Step(isa, u, sched[0]), sched[1..], h, off, pc);
      }
    }
  }

  lemma {:induction false} OnlyThisIff(c: Allocator, isa: Isa, u: State, sched: seq<Tid>, h: Heap,
                                       off: set<Word>, pc: Word, e: HeapEvent)
    requires Clears(isa, u, sched, off) && pc in Places(c, h) && Places(c, h) <= off + {pc}
    requires Legal(h, e) && Places(c, After(h, e)) <= off + {pc}
    ensures Observe(c, isa, u, sched, h) == [e] <==> OnlyThis(c, isa, u, sched, pc, h, e)
    decreases |sched|
  {
    hide Places, EventAt, Step, After, Legal;
    if sched != [] {
      var y, u1 := sched[0], Step(isa, u, sched[0]);
      var r := u.threads[y];
      if r.pc == pc {
        PlaceIsEvent(c, h, r, Top(u.mem, r.rsp));
        var e1 := Turn(c, u, y, h).value;
        var rest := Observe(c, isa, u1, sched[1..], After(h, e1));
        assert ([e1] + rest)[0] == e1 && ([e1] + rest == [e1] <==> rest == []);
        if e1 == e {
          QuietIff(c, isa, u1, sched[1..], After(h, e), off, pc);
        }
      } else {
        NoEventElsewhere(c, h, r, Top(u.mem, r.rsp));
        OnlyThisIff(c, isa, u1, sched[1..], h, off, pc, e);
      }
    }
  }

  // ---------- how many calls

  /** The calls among the events, returns left out. */
  ghost function CallsIn(es: seq<HeapEvent>): nat {
    if es == [] then 0 else (if es[0].Return? then 0 else 1) + CallsIn(es[1..])
  }

  lemma {:induction false} CallsInConcat(es: seq<HeapEvent>, fs: seq<HeapEvent>)
    ensures CallsIn(es + fs) == CallsIn(es) + CallsIn(fs)
  {
    if es == [] {
      assert es + fs == fs;
    } else {
      assert (es + fs)[1..] == es[1..] + fs;
      CallsInConcat(es[1..], fs);
    }
  }

  ghost function EntriesIn(c: Allocator): set<Word> {
    Elems(EntriesOf(c.malloc, c.calloc, c.realloc, c.free))
  }

  lemma EntryListed(c: Allocator, a: Word)
    ensures a in EntriesIn(c)
       <==> c.malloc == Some(a) || c.calloc == Some(a) || c.realloc == Some(a) || c.free == Some(a)
  {
    var entries := EntriesOf(c.malloc, c.calloc, c.realloc, c.free);
    assert a in EntriesIn(c) <==> a in entries;
    assert a in entries <==>
      a in Listed(c.malloc) || a in Listed(c.calloc) || a in Listed(c.realloc) || a in Listed(c.free);
    IsListed(c.malloc, a);
    IsListed(c.calloc, a);
    IsListed(c.realloc, a);
    IsListed(c.free, a);
    hide Listed, EntriesOf;
  }

  /** A call begins exactly at an entry point. */
  lemma EntryIsCall(c: Allocator, h: Heap, r: Regs, top: Word)
    ensures r.pc in EntriesIn(c) <==> EventAt(c, h, r, top).Some? && !EventAt(c, h, r, top).value.Return?
  {
    EntryListed(c, r.pc);
    hide EntriesIn;
  }

  lemma IsListed(o: Option<Word>, a: Word)
    ensures a in Listed(o) <==> o == Some(a)
  {
  }

  /** Where all entry points but perhaps `pc` are kept off, the calls are the executions of
      that entry point. */
  lemma {:induction false} CallsAreTurns(c: Allocator, isa: Isa, u: State, sched: seq<Tid>, h: Heap,
                                         off: set<Word>, pc: Word)
    requires Clears(isa, u, sched, off) && EntriesIn(c) <= off + {pc}
    ensures CallsIn(Observe(c, isa, u, sched, h)) == if pc in EntriesIn(c) then TurnsAt(isa, u, sched, pc) else 0
    decreases |sched|
  {
    hide EntriesIn, EventAt, Step, After;
    if sched != [] {
      var r := u.threads[sched[0]];
      EntryIsCall(c, h, r, Top(u.mem, r.rsp));
      var e := Turn(c, u, sched[0], h);
      var h1 := if e.Some? then After(h, e.value) else h;
      CallsAreTurns(c, isa, Step(isa, u, sched[0]), sched[1..], h1, off, pc);
      if e.Some? {
        CallsInConcat([e.value], Observe(c, isa, Step(isa, u, sched[0]), sched[1..], h1));
      }
    }
  }
}
