/** The leak tracker in a debugging session: its breakpoints come and go without trace,
    and the stops it handles report the program's heap. */
module LeakSession {
  import opened Words
  import opened Machine
  import opened Engine
  import opened Transparency
  import opened Session
  import opened LeakTracking
  import opened LeakHeap

  // ---------- its breakpoints

  /** The armed addresses are the user's, the entry points, and exactly the return
      addresses with a call pending. */
  ghost predicate Booked(t: Tracker, armed: set<Word>, user: set<Word>) {
    && armed == user + Elems(Entries(t)) + t.pending.Keys
    && user !! Elems(Entries(t)) && user !! t.pending.Keys && Elems(Entries(t)) !! t.pending.Keys
  }

  lemma BookedIff(t: Tracker, armed: set<Word>, user: set<Word>, a: Word)
    requires Booked(t, armed, user)
    ensures a in armed && a !in user && a !in Entries(t) <==> a in t.pending
  {
    assert a in Elems(Entries(t)) <==> a in Entries(t);
  }

  ghost predicate AllNew(d: Dbg, addrs: seq<Word>) {
    && (forall i, j :: 0 <= i < j < |addrs| ==> addrs[i] != addrs[j])
    && (forall a :: a in addrs ==> a !in d.bps && a in d.target.mem)
  }

  lemma SetOneMore(d: Dbg, addrs: seq<Word>)
    requires Consistent(d) && AllNew(d, addrs) && addrs != []
    ensures var (d1, ok) := SetBp(d, addrs[0]);
      && ok && Consistent(d1) && View(d1) == View(d) && d1.bps.Keys == d.bps.Keys + {addrs[0]}
      && AllNew(d1, addrs[1..])
  {
    hide Consistent, View;
    SetBpConsistent(d, addrs[0]);
    assert addrs[0] !in addrs[1..];
  }

  lemma {:induction false} SetAllConsistent(d: Dbg, addrs: seq<Word>)
    requires Consistent(d) && AllNew(d, addrs)
    ensures var (d1, ok) := SetAll(d, addrs);
      ok && Consistent(d1) && View(d1) == View(d) && d1.bps.Keys == d.bps.Keys + Elems(addrs)
    decreases |addrs|
  {
    if addrs == [] {
      assert Elems(addrs) == {} && d.bps.Keys + {} == d.bps.Keys;
    } else {
      hide Consistent, View, SetBp, AllNew, Elems;
      SetOneMore(d, addrs);
      var d1 := SetBp(d, addrs[0]).0;
      SetAllConsistent(d1, addrs[1..]);
      KeysGrow(d.bps.Keys, addrs);
    }
  }

  lemma KeysGrow(keys: set<Word>, addrs: seq<Word>)
    requires addrs != []
    ensures keys + {addrs[0]} + Elems(addrs[1..]) == keys + Elems(addrs)
  {
    assert addrs == [addrs[0]] + addrs[1..];
  }

  /** The tracker as `enable` leaves it. */
  function Fresh(malloc: Option<Word>, calloc: Option<Word>, realloc: Option<Word>, free: Option<Word>): Tracker {
    Tracker(true, map[], malloc, calloc, realloc, free, map[])
  }

  /** Just enabled, with no calls under way and no blocks known, the tracker is in step. */
  lemma FreshTracks(malloc: Option<Word>, calloc: Option<Word>, realloc: Option<Word>, free: Option<Word>)
    ensures Tracks(Fresh(malloc, calloc, realloc, free), Heap(map[], map[], {}))
    ensures Exact(Fresh(malloc, calloc, realloc, free), Heap(map[], map[], {}))
  {
  }

  /** Setting them succeeds exactly if all can be reached; the first that cannot stops it,
      with those before it set. */
  lemma {:induction false} SetAllStops(d: Dbg, addrs: seq<Word>, k: nat)
    requires k <= |addrs| && forall i :: 0 <= i < k ==> d.alive && addrs[i] in d.target.mem
    ensures k == |addrs| ==> SetAll(d, addrs).1
    ensures k < |addrs| && !(d.alive && addrs[k] in d.target.mem) ==>
      SetAll(d, addrs) == (SetAll(d, addrs[..k]).0, false)
    decreases k
  {
    if k > 0 {
      SetAllStops(SetBp(d, addrs[0]).0, addrs[1..], k - 1);
      assert addrs[..k][1..] == addrs[1..][..k - 1];
    }
  }

  lemma EnableBooks(d: Dbg, malloc: Option<Word>, calloc: Option<Word>, realloc: Option<Word>, free: Option<Word>)
    requires Consistent(d) && AllNew(d, EntriesOf(malloc, calloc, realloc, free))
    ensures var (d1, ok) := SetAll(d, EntriesOf(malloc, calloc, realloc, free));
      && ok && Consistent(d1) && View(d1) == View(d)
      && Booked(Fresh(malloc, calloc, realloc, free), d1.bps.Keys, d.bps.Keys)
  {
    hide Consistent, View, SetAll, EntriesOf, AllNew;
    SetAllConsistent(d, EntriesOf(malloc, calloc, realloc, free));
    NewIsOther(d, EntriesOf(malloc, calloc, realloc, free));
  }

  lemma NewIsOther(d: Dbg, addrs: seq<Word>)
    requires AllNew(d, addrs)
    ensures d.bps.Keys !! Elems(addrs)
  {
  }

  lemma UnplantKeeps(d: Dbg, addrs: seq<Word>)
    requires Consistent(d)
    ensures var d1 := Unplant(d, addrs);
      Consistent(d1) && View(d1) == View(d) && d1.bps == d.bps - Elems(addrs)
  {
    UnplantConsistent(d, addrs);
    UnplantInvisible(d, addrs);
  }

  /** After `disable`, in whatever order it removes them, the user's breakpoints are left,
      exactly those, and the target looks as before. */
  lemma DisableRestores(t: Tracker, d: Dbg, user: set<Word>, order: seq<Word>)
    requires Consistent(d) && Booked(t, d.bps.Keys, user) && Elems(order) == t.pending.Keys
    ensures var d1 := Unplant(Unplant(d, Entries(t)), order);
      Consistent(d1) && View(d1) == View(d) && d1.bps.Keys == user && (forall a :: a in user ==> d1.bps[a] == d.bps[a])
  {
    hide Consistent, View, Unplant, Entries;
    UnplantKeeps(d, Entries(t));
    UnplantKeeps(Unplant(d, Entries(t)), order);
  }

  // ---------- handling one stop

  /** A call to an allocator, seen at its entry point. */
  predicate AtEntry(w: Where) {
    w == AtMalloc || w == AtCalloc || w == AtRealloc
  }

  /** The call at hand returns to an address without a breakpoint of somebody else. */
  predicate SiteIsFree(t: Tracker, d: Dbg) {
    match CurrentRegs(d)
    case None => true
    case Some(r) =>
      t.enabled && AtEntry(WhereIs(t, r.pc)) && ReadWord(d, r.rsp).Some? ==>
        ReadWord(d, r.rsp).value in t.pending || ReadWord(d, r.rsp).value !in d.bps
  }

  lemma PushBooked(t: Tracker, d: Dbg, r: Regs, size: Word, user: set<Word>)
    requires Consistent(d) && Booked(t, d.bps.Keys, user)
    requires ReadWord(d, r.rsp).Some? ==>
      ReadWord(d, r.rsp).value in t.pending || ReadWord(d, r.rsp).value !in d.bps
    ensures var (t1, d1, _) := PushPending(t, d, r, size);
      Consistent(d1) && View(d1) == View(d) && d1.last == d.last && Booked(t1, d1.bps.Keys, user)
  {
    hide ReadWord, SetBp, Consistent, View;
    match ReadWord(d, r.rsp)
    case None =>
    case Some(site) =>
      if site !in t.pending {
        PushSets(d, site);
      }
  }

  lemma PushSets(d: Dbg, site: Word)
    requires Consistent(d) && site !in d.bps
    ensures var (d1, ok) := SetBp(d, site);
      && Consistent(d1) && View(d1) == View(d) && d1.last == d.last
      && d1.bps.Keys == if ok then d.bps.Keys + {site} else d.bps.Keys
  {
    if site in d.target.mem { SetBpConsistent(d, site); }
  }

  /** Nothing but the two tables differs. */
  ghost predicate SameEntries(t: Tracker, t1: Tracker) {
    t1 == t.(live := t1.live, pending := t1.pending)
  }

  lemma PopBooked(t: Tracker, d: Dbg, pc: Word, ptr: Word, user: set<Word>)
    requires Consistent(d) && Booked(t, d.bps.Keys, user) && pc in t.pending
    ensures var t1 := PopReturn(t, pc, ptr);
      var d1 := if pc in t1.pending then d else RemoveBp(d, pc).0;
      Consistent(d1) && View(d1) == View(d) && d1.last == d.last && Booked(t1, d1.bps.Keys, user)
  {
    PopKeys(t, pc, ptr);
    hide RemoveBp, PopReturn, Consistent, View;
    RemoveBpConsistent(d, pc);
    var t1 := PopReturn(t, pc, ptr);
    if pc !in t1.pending {
      BookedWithout(t, t1, d.bps.Keys, user, pc);
      KeysLess(d.bps, pc);
    }
  }

  lemma PopKeys(t: Tracker, pc: Word, ptr: Word)
    requires pc in t.pending
    ensures var t1 := PopReturn(t, pc, ptr);
      && SameEntries(t, t1)
      && t1.pending.Keys == if pc in t1.pending then t.pending.Keys else t.pending.Keys - {pc}
  {
  }

  lemma BookedWithout(t: Tracker, t1: Tracker, armed: set<Word>, user: set<Word>, pc: Word)
    requires Booked(t, armed, user) && pc in t.pending && SameEntries(t, t1)
    requires t1.pending.Keys == t.pending.Keys - {pc}
    ensures Booked(t1, armed - {pc}, user)
  {
  }

  lemma ForgetBooked(t: Tracker, ptr: Word, armed: set<Word>, user: set<Word>)
    requires Booked(t, armed, user)
    ensures Booked(Forget(t, ptr), armed, user) && Forget(t, ptr).pending == t.pending
  {
  }

  /** A stop that is not the tracker's changes nothing. */
  lemma NotHandled(t: Tracker, d: Dbg)
    requires OnStop(t, d).2 == Some(false)
    ensures OnStop(t, d) == (t, d, Some(false))
  {
  }

  /** Handling a stop keeps the books and is invisible to the user. */
  lemma HandlingIsInvisible(t: Tracker, d: Dbg, user: set<Word>)
    requires Consistent(d) && Booked(t, d.bps.Keys, user) && SiteIsFree(t, d)
    ensures var (t1, d1, _) := OnStop(t, d);
      Consistent(d1) && View(d1) == View(d) && d1.last == d.last && Booked(t1, d1.bps.Keys, user)
  {
    hide PushPending, ReadWord, RemoveBp, PopReturn, Forget, Consistent, View, Booked;
    match CurrentRegs(d)
    case None =>
    case Some(r) =>
      ForgetBooked(t, r.rdi, d.bps.Keys, user);
      if t.enabled {
        match WhereIs(t, r.pc)
        case AtMalloc => PushBooked(t, d, r, r.rdi, user);
        case AtCalloc => PushBooked(t, d, r, SaturatingMul(r.rdi, r.rsi), user);
        case AtRealloc => PushBooked(Forget(t, r.rdi), d, r, r.rsi, user);
        case AtFree =>
        case AtReturn => PopBooked(t, d, r.pc, r.rax, user);
        case Elsewhere =>
      }
  }

  /** The registers and the stack at the stop are those of event `e`. */
  ghost predicate Shows(t: Tracker, d: Dbg, h: Heap, e: HeapEvent) {
    && t.enabled && CurrentRegs(d).Some?
    && var r := CurrentRegs(d).value;
      match e
      case Malloc(_, size, site) =>
        WhereIs(t, r.pc) == AtMalloc && r.rdi == size && CallFrom(t, d, r, site)
      case Calloc(_, count, each, site) =>
        WhereIs(t, r.pc) == AtCalloc && r.rdi == count && r.rsi == each && CallFrom(t, d, r, site)
      case Realloc(_, ptr, size, site) =>
        WhereIs(t, r.pc) == AtRealloc && r.rdi == ptr && r.rsi == size && CallFrom(t, d, r, site)
      case Free(ptr) => WhereIs(t, r.pc) == AtFree && r.rdi == ptr
      case Return(id, ptr) =>
        WhereIs(t, r.pc) == AtReturn && id in h.calls && h.calls[id].info.callSite == r.pc && r.rax == ptr
  }

  /** The stack holds the return address `site`, which can be armed. */
  ghost predicate CallFrom(t: Tracker, d: Dbg, r: Regs, site: Word) {
    ReadWord(d, r.rsp) == Some(site) && (site in t.pending || (site in d.target.mem && site !in d.bps))
  }

  /** At the entry of `malloc`, in terms of the word on the stack. */
  lemma MallocNoted(t: Tracker, d: Dbg, r: Regs, site: Word)
    requires t.enabled && t.malloc == Some(r.pc) && CurrentRegs(d) == Some(r) && ReadWord(d, r.rsp) == Some(site)
    ensures site in t.pending ==> OnStop(t, d) == (AddPending(t, site, r.rdi), d, Some(true))
    ensures site !in t.pending && SetBp(d, site).1 ==>
      OnStop(t, d) == (AddPending(t, site, r.rdi), SetBp(d, site).0, Some(true))
  {
    hide CurrentRegs, ReadWord, SetBp, AddPending;
  }

  lemma PushTracks(t: Tracker, d: Dbg, r: Regs, size: Word, site: Word)
    requires d.alive && CallFrom(t, d, r, site)
    ensures PushPending(t, d, r, size).0 == AddPending(t, site, size) && PushPending(t, d, r, size).2 == Some(true)
  {
    hide ReadWord;
  }

  /** What the tracker reads off registers and stack is the event. */
  lemma StopIsTracked(t: Tracker, d: Dbg, h: Heap, e: HeapEvent)
    requires d.alive && Tracks(t, h) && Legal(h, e) && Shows(t, d, h, e)
    ensures OnStop(t, d).0 == Track(t, h, e) && OnStop(t, d).2 == Some(true)
    ensures SiteIsFree(t, d)
  {
    hide PushPending, ReadWord, RemoveBp;
    var r := CurrentRegs(d).value;
    match e
    case Malloc(_, size, site) => PushTracks(t, d, r, size, site);
    case Calloc(_, count, each, site) => PushTracks(t, d, r, SaturatingMul(count, each), site);
    case Realloc(_, ptr, size, site) => PushTracks(Forget(t, ptr), d, r, size, site);
    case Free(ptr) =>
    case Return(id, ptr) =>
  }

  // ---------- whole runs

  /** The stops along the run are the events `es`; the last stop is not the tracker's. */
  ghost predicate Traces(p: Platform, t: Tracker, d: Dbg, h: Heap, status: Status, envs: seq<(Env, Env)>,
                         es: seq<HeapEvent>)
    decreases |envs|
  {
    if !status.Stopped? || !d.alive || OnStop(t, d).2 == Some(false) then es == []
    else
      && es != [] && Sensible(h, es[0]) && Shows(t, d, h, es[0])
      && var (t1, d1, _) := OnStop(t, d);
        if envs == [] then |es| == 1
        else
          && GoodCont(p, d1, envs[0].0, envs[0].1)
          && var (d2, out) := Cont(p, d1, envs[0].0, envs[0].1);
            if out.Done? then Traces(p, t1, d2, After(h, es[0]), out.status, envs[1..], es[1..]) else |es| == 1
  }

  /** What the unpatched program does meanwhile. */
  ghost function HiddenActs(p: Platform, t: Tracker, d: Dbg, status: Status, envs: seq<(Env, Env)>): seq<Act>
    decreases |envs|
  {
    if !status.Stopped? || OnStop(t, d).2 != Some(true) || envs == [] then []
    else
      var d1 := OnStop(t, d).1;
      var (d2, out) := Cont(p, d1, envs[0].0, envs[0].1);
      if !out.Done? || !Consistent(d1) then []
      else ContActs(p, d1, envs[0].0, envs[0].1) + HiddenActs(p, OnStop(t, d).0, d2, out.status, envs[1..])
  }

  /** The tracker tracks heap `h`; while the target lives, its breakpoints are in order
      and the user sees what the unpatched program makes of state `v` in `acts`. */
  ghost predicate Followed(p: Platform, user: set<Word>, v: State, acts: seq<Act>, t: Tracker, d: Dbg, h: Heap) {
    && Tracks(t, h)
    && (d.alive ==> Consistent(d) && Booked(t, d.bps.Keys, user) && View(d) == Replay(p.isa, v, acts))
  }

  lemma FollowedLater(p: Platform, user: set<Word>, v: State, first: seq<Act>, acts: seq<Act>,
                      t: Tracker, d: Dbg, h: Heap)
    requires Followed(p, user, Replay(p.isa, v, first), acts, t, d, h)
    ensures Followed(p, user, v, first + acts, t, d, h)
  {
    ReplayConcat(p.isa, v, first, acts);
  }

  lemma HandledStep(p: Platform, t: Tracker, d: Dbg, h: Heap, e: HeapEvent, user: set<Word>)
    requires Consistent(d) && Booked(t, d.bps.Keys, user)
    requires Tracks(t, h) && Sensible(h, e) && Shows(t, d, h, e)
    ensures var (t1, d1, handled) := OnStop(t, d);
      && handled == Some(true) && t1 == Track(t, h, e)
      && Consistent(d1) && View(d1) == View(d) && Booked(t1, d1.bps.Keys, user)
      && Followed(p, user, View(d), [], t1, d1, After(h, e))
  {
    hide OnStop, View, Booked, Tracks, Shows, Track, After;
    StopIsTracked(t, d, h, e);
    HandlingIsInvisible(t, d, user);
    TrackStep(t, h, e);
    ReplayNone(p.isa, View(d));
  }

  lemma ResumedStep(p: Platform, t: Tracker, d: Dbg, h: Heap, env: (Env, Env), user: set<Word>)
    requires Decodable(p.isa) && Tracks(t, h)
    requires Consistent(d) && Booked(t, d.bps.Keys, user) && GoodCont(p, d, env.0, env.1)
    ensures var (d2, out) := Cont(p, d, env.0, env.1);
      && (out.Done? && out.status.Stopped? ==> d2.alive)
      && (d2.alive ==> out.Done?)
      && Followed(p, user, View(d), ContActs(p, d, env.0, env.1), t, d2, h)
  {
    hide Cont, Consistent, View, Booked, Tracks, GoodCont, Replay, ContActs;
    ContTransparent(p, d, env.0, env.1);
  }

  lemma {:induction false} TracesPlausible(p: Platform, t: Tracker, d: Dbg, h: Heap, status: Status,
                                           envs: seq<(Env, Env)>, es: seq<HeapEvent>)
    requires Traces(p, t, d, h, status, envs, es)
    ensures Plausible(h, es)
    decreases |envs|
  {
    hide OnStop, Cont, Shows, GoodCont, After;
    if es != [] && envs != [] {
      var (t1, d1, _) := OnStop(t, d);
      var (d2, out) := Cont(p, d1, envs[0].0, envs[0].1);
      if out.Done? {
        TracesPlausible(p, t1, d2, After(h, es[0]), out.status, envs[1..], es[1..]);
      }
    }
  }

  /** The events are possible for the program, and the tracker ends up tracking the heap
      after them; while the target lives, its breakpoints are in order and all the user
      can see is the unpatched program having run on. */
  lemma {:induction false} TrackedRun(p: Platform, t: Tracker, d: Dbg, h: Heap, status: Status,
                                      envs: seq<(Env, Env)>, es: seq<HeapEvent>, user: set<Word>)
    requires Decodable(p.isa) && Tracks(t, h) && Traces(p, t, d, h, status, envs, es)
    requires status.Stopped? ==> d.alive
    requires d.alive ==> Consistent(d) && Booked(t, d.bps.Keys, user)
    ensures Plausible(h, es)
    ensures var (t1, d1, _) := AutoCont(p, t, d, status, envs);
      && t1 == TrackAll(t, h, es)
      && Followed(p, user, View(d), HiddenActs(p, t, d, status, envs), t1, d1, HeapAfter(h, es))
    decreases |envs|
  {
    hide OnStop, Cont, Consistent, View, Booked, Tracks, Shows, GoodCont, Track, After, ContActs, Replay, Decodable;
    ReplayNone(p.isa, View(d));
    TracesPlausible(p, t, d, h, status, envs, es);
    if status.Stopped? && OnStop(t, d).2 != Some(false) {
      var (t1, d1, _) := OnStop(t, d);
      HandledStep(p, t, d, h, es[0], user);
      var h1 := After(h, es[0]);
      if envs != [] {
        ResumedStep(p, t1, d1, h1, envs[0], user);
        var (d2, out) := Cont(p, d1, envs[0].0, envs[0].1);
        if out.Done? {
          TrackedRun(p, t1, d2, h1, out.status, envs[1..], es[1..], user);
          if d2.alive {
            var (t3, d3, _) := AutoCont(p, t1, d2, out.status, envs[1..]);
            FollowedLater(p, user, View(d), ContActs(p, d1, envs[0].0, envs[0].1),
                          HiddenActs(p, t1, d2, out.status, envs[1..]), t3, d3, HeapAfter(h1, es[1..]));
          }
        }
      }
    } else if status.Stopped? {
      NotHandled(t, d);
    }
  }

  lemma PendingIff(t: Tracker, h: Heap, a: Word)
    requires Tracks(t, h)
    ensures a in t.pending <==> InFlight(h, a) != {}
  {
    if id :| id in InFlight(h, a) {
      assert h.calls[id].info.callSite in t.pending;
    }
  }

  lemma PushKeepsEntries(t: Tracker, d: Dbg, r: Regs, size: Word)
    ensures SameEntries(t, PushPending(t, d, r, size).0)
  {
    hide ReadWord, SetBp;
  }

  lemma OnStopKeepsEntries(t: Tracker, d: Dbg)
    ensures SameEntries(t, OnStop(t, d).0)
  {
    hide PushPending, RemoveBp;
    if CurrentRegs(d).Some? {
      var r := CurrentRegs(d).value;
      PushKeepsEntries(t, d, r, r.rdi);
      PushKeepsEntries(t, d, r, SaturatingMul(r.rdi, r.rsi));
      PushKeepsEntries(Forget(t, r.rdi), d, r, r.rsi);
      hide CurrentRegs, SaturatingMul;
    }
  }

  lemma {:induction false} EntriesKept(p: Platform, t: Tracker, d: Dbg, status: Status, envs: seq<(Env, Env)>)
    ensures SameEntries(t, AutoCont(p, t, d, status, envs).0)
    decreases |envs|
  {
    hide OnStop, Cont;
    OnStopKeepsEntries(t, d);
    if envs != [] {
      var (d2, out) := Cont(p, OnStop(t, d).1, envs[0].0, envs[0].1);
      if out.Done? {
        EntriesKept(p, OnStop(t, d).0, d2, out.status, envs[1..]);
      }
    }
  }

  /** After any hidden run a breakpoint that is neither the user's nor on an entry point is
      armed exactly at the return addresses of the program's calls in flight. */
  lemma {:induction false} ReturnArmedIff(p: Platform, t: Tracker, d: Dbg, h: Heap, status: Status,
                                          envs: seq<(Env, Env)>,
                                          es: seq<HeapEvent>, user: set<Word>, a: Word)
    requires Decodable(p.isa) && Tracks(t, h) && Traces(p, t, d, h, status, envs, es)
    requires status.Stopped? ==> d.alive
    requires d.alive ==> Consistent(d) && Booked(t, d.bps.Keys, user)
    ensures Plausible(h, es)
    ensures var (t1, d1, _) := AutoCont(p, t, d, status, envs);
      d1.alive ==> (a in d1.bps && a !in user && a !in Entries(t1) <==> InFlight(HeapAfter(h, es), a) != {})
  {
    TrackedRun(p, t, d, h, status, envs, es, user);
    EntriesKept(p, t, d, status, envs);
    var (t1, d1, _) := AutoCont(p, t, d, status, envs);
    hide AutoCont, Booked, Tracks, Traces, Plausible, HeapAfter, Consistent, Replay, HiddenActs, InFlight, TrackAll;
    if d1.alive {
      BookedIff(t1, d1.bps.Keys, user, a);
      PendingIff(t1, HeapAfter(h, es), a);
    }
  }

  // ---------- where a hidden run ends

  /** Tracker, session and what the last `cont` returned after `k` stops have been handled,
      each followed by a `cont` in the next of `envs`. */
  ghost function AfterStops(p: Platform, t: Tracker, d: Dbg, out: Outcome,
                            envs: seq<(Env, Env)>, k: nat): (Tracker, Dbg, Outcome)
    requires k <= |envs|
    decreases k
  {
    if k == 0 then (t, d, out)
    else
      var (t1, d1, _) := OnStop(t, d);
      var (d2, out2) := Cont(p, d1, envs[0].0, envs[0].1);
      AfterStops(p, t1, d2, out2, envs[1..], k - 1)
  }

  /** The stop after `k` handled ones is one the tracker handles. */
  ghost predicate Tracked(p: Platform, t: Tracker, d: Dbg, out: Outcome, envs: seq<(Env, Env)>, k: nat)
    requires k <= |envs|
  {
    var (tk, dk, outk) := AfterStops(p, t, d, out, envs, k);
    outk.Done? && outk.status.Stopped? && OnStop(tk, dk).2 == Some(true)
  }

  /** `k` stops are handled; the one after them is reported if it is not the tracker's, and
      so is the end of the target, an error of `cont`, or an error in handling it. */
  ghost predicate EndsAt(p: Platform, t: Tracker, d: Dbg, out: Outcome, envs: seq<(Env, Env)>, k: nat,
                         result: (Tracker, Dbg, Option<Outcome>))
    requires k <= |envs|
  {
    var (tk, dk, outk) := AfterStops(p, t, d, out, envs, k);
    var (t', d', handled) := OnStop(tk, dk);
    && (forall j: nat :: j < k ==> Tracked(p, t, d, out, envs, j))
    && (result.2 == None ==> k == |envs|)
    && result == if !(outk.Done? && outk.status.Stopped?) then (tk, dk, Some(outk))
                 else if handled == None then (t', d', Some(Failed))
                 else (t', d', if handled.value then None else Some(outk))
  }

  /** A hidden run ends at the first stop that is not the tracker's, and reports it. */
  lemma {:induction false} HiddenRunEnds(p: Platform, t: Tracker, d: Dbg, status: Status, envs: seq<(Env, Env)>)
    returns (k: nat)
    ensures k <= |envs| && EndsAt(p, t, d, Done(status), envs, k, AutoCont(p, t, d, status, envs))
    decreases |envs|
  {
    hide OnStop, Cont;
    k := 0;
    if status.Stopped? && OnStop(t, d).2 == Some(true) && envs != [] {
      var (t1, d1, _) := OnStop(t, d);
      var (d2, out) := Cont(p, d1, envs[0].0, envs[0].1);
      assert Tracked(p, t, d, Done(status), envs, 0);
      if out.Done? {
        k := HiddenRunEnds(p, t1, d2, out.status, envs[1..]);
        k := k + 1;
        forall j: nat | j < k ensures Tracked(p, t, d, Done(status), envs, j) {
          assert j > 0 ==> Tracked(p, t1, d2, out, envs[1..], j - 1);
        }
      } else {
        k := 1;
      }
    }
  }
}
