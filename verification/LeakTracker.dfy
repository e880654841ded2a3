/** The heap leak tracker: breakpoints on the allocator's entry points, one-shot
    breakpoints on their return addresses, and a table of the blocks still alive. */
module LeakTracking {
  import opened Words
  import opened Machine
  import opened Engine
  import opened Session
  import opened DebuggerObject

  datatype AllocInfo = AllocInfo(size: Word, callSite: Word)

  /** `pending` holds, for each return address, the calls that have not returned yet. */
  datatype Tracker = Tracker(
    enabled: bool, live: map<Word, AllocInfo>,
    malloc: Option<Word>, calloc: Option<Word>, realloc: Option<Word>, free: Option<Word>,
    pending: map<Word, seq<AllocInfo>>)

  function SaturatingMul(a: Word, b: Word): Word {
    if a * b < WORD then a * b else WORD - 1
  }

  function Listed(a: Option<Word>): seq<Word> {
    if a.Some? then [a.value] else []
  }

  function EntriesOf(malloc: Option<Word>, calloc: Option<Word>, realloc: Option<Word>, free: Option<Word>): seq<Word> {
    Listed(malloc) + Listed(calloc) + Listed(realloc) + Listed(free)
  }

  function Entries(t: Tracker): seq<Word> {
    EntriesOf(t.malloc, t.calloc, t.realloc, t.free)
  }

  /** Sets breakpoints one after the other; the first failure stops it. */
  function SetAll(d: Dbg, addrs: seq<Word>): (Dbg, bool)
    decreases |addrs|
  {
    if addrs == [] then (d, true)
    else
      var (d1, ok) := SetBp(d, addrs[0]);
      if ok then SetAll(d1, addrs[1..]) else (d1, false)
  }

  // ---------- handling a stop

  function Forget(t: Tracker, ptr: Word): Tracker {
    if ptr == 0 then t else t.(live := t.live - {ptr})
  }

  function AddPending(t: Tracker, site: Word, size: Word): Tracker {
    var before := if site in t.pending then t.pending[site] else [];
    t.(pending := t.pending[site := before + [AllocInfo(size, site)]])
  }

  /** The newest call with this return address has returned `ptr`. */
  function PopReturn(t: Tracker, site: Word, ptr: Word): Tracker
    requires site in t.pending
  {
    var calls := t.pending[site];
    if calls == [] then t.(pending := t.pending - {site})
    else
      var rest, last := calls[..|calls| - 1], calls[|calls| - 1];
      t.(live := if ptr == 0 then t.live else t.live[ptr := last],
         pending := if rest == [] then t.pending - {site} else t.pending[site := rest])
  }

  function PushPending(t: Tracker, d: Dbg, r: Regs, size: Word): (Tracker, Dbg, Option<bool>) {
    match ReadWord(d, r.rsp)
    case None => (t, d, None)
    case Some(site) =>
      var (d1, ok) := if site in t.pending then (d, true) else SetBp(d, site);
      if ok then (AddPending(t, site, size), d1, Some(true)) else (t, d1, None)
  }

  datatype Where = AtMalloc | AtCalloc | AtRealloc | AtFree | AtReturn | Elsewhere

  function WhereIs(t: Tracker, pc: Word): Where {
    if t.malloc == Some(pc) then AtMalloc
    else if t.calloc == Some(pc) then AtCalloc
    else if t.realloc == Some(pc) then AtRealloc
    else if t.free == Some(pc) then AtFree
    else if pc in t.pending then AtReturn
    else Elsewhere
  }

  function OnRegs(t: Tracker, d: Dbg, r: Regs): (Tracker, Dbg, Option<bool>) {
    match WhereIs(t, r.pc)
    case AtMalloc => PushPending(t, d, r, r.rdi)
    case AtCalloc => PushPending(t, d, r, SaturatingMul(r.rdi, r.rsi))
    case AtRealloc => PushPending(Forget(t, r.rdi), d, r, r.rsi)
    case AtFree => (Forget(t, r.rdi), d, Some(true))
    case AtReturn =>
      var t1 := PopReturn(t, r.pc, r.rax);
      (t1, if r.pc in t1.pending then d else RemoveBp(d, r.pc).0, Some(true))
    case Elsewhere => (t, d, Some(false))
  }

  /** `Some(true)` asks the caller to continue; `None` is an error. */
  function OnStop(t: Tracker, d: Dbg): (Tracker, Dbg, Option<bool>) {
    if !t.enabled then (t, d, Some(false))
    else
      match CurrentRegs(d)
      case None => (t, d, None)
      case Some(r) => OnRegs(t, d, r)
  }

  /** Handles stops and continues until one is not the tracker's. Each resume takes its
      surroundings from `envs`; `None` when they run out with the target still going. */
  function AutoCont(p: Platform, t: Tracker, d: Dbg, status: Status,
                    envs: seq<(Env, Env)>): (Tracker, Dbg, Option<Outcome>)
    decreases |envs|
  {
    if !status.Stopped? then (t, d, Some(Done(status)))
    else
      var (t1, d1, handled) := OnStop(t, d);
      if handled == None then (t1, d1, Some(Failed))
      else if !handled.value then (t1, d1, Some(Done(status)))
      else if envs == [] then (t1, d1, None)
      else
        var (d2, out) := Cont(p, d1, envs[0].0, envs[0].1);
        if out.Done? then AutoCont(p, t1, d2, out.status, envs[1..]) else (t1, d2, Some(out))
  }

  // ---------- the object

  method InSomeOrder(addrs: set<Word>) returns (listed: seq<Word>)
    ensures Elems(listed) == addrs
  {
    listed := [];
    var rest := addrs;
    while rest != {}
      invariant rest <= addrs && forall x :: x in listed <==> x in addrs - rest
      decreases rest
    {
      var a :| a in rest;
      rest, listed := rest - {a}, listed + [a];
    }
  }

  class LeakTracker {
    var enabled: bool
    var live: map<Word, AllocInfo>
    var malloc: Option<Word>
    var calloc: Option<Word>
    var realloc: Option<Word>
    var free: Option<Word>
    var pending: map<Word, seq<AllocInfo>>

    constructor ()
      ensures Abs() == Tracker(false, map[], None, None, None, None, map[])
    {
      enabled, live, pending := false, map[], map[];
      malloc, calloc, realloc, free := None, None, None, None;
    }

    ghost function Abs(): Tracker
      reads this
    {
      Tracker(enabled, live, malloc, calloc, realloc, free, pending)
    }

    /** Sets breakpoints in order up to the first failure. */
    method SetEach(dbg: Debugger, addrs: seq<Word>) returns (ok: bool)
      requires dbg.Valid()
      modifies dbg`breakpoints, dbg`table, dbg.target`state
      ensures dbg.Valid() && (dbg.Abs(), ok) == SetAll(old(dbg.Abs()), addrs)
    {
      hide SetBp;
      var i := 0;
      while i < |addrs|
        invariant 0 <= i <= |addrs| && dbg.Valid()
        invariant SetAll(dbg.Abs(), addrs[i..]) == SetAll(old(dbg.Abs()), addrs)
      {
        assert addrs[i..][1..] == addrs[i + 1..];
        ok := dbg.SetBreakpoint(addrs[i]);
        if !ok { return; }
        i := i + 1;
      }
      ok := true;
    }

    method Enable(dbg: Debugger, malloc: Option<Word>, calloc: Option<Word>, realloc: Option<Word>, free: Option<Word>)
      returns (ok: bool)
      requires dbg.Valid()
      modifies this, dbg`breakpoints, dbg`table, dbg.target`state
      ensures dbg.Valid()
      ensures (dbg.Abs(), ok) == SetAll(old(dbg.Abs()), EntriesOf(malloc, calloc, realloc, free))
      ensures Abs() == if ok then Tracker(true, map[], malloc, calloc, realloc, free, map[]) else old(Abs())
    {
      hide SetAll, EntriesOf;
      ok := SetEach(dbg, EntriesOf(malloc, calloc, realloc, free));
      if !ok { return; }
      this.malloc, this.calloc, this.realloc, this.free := malloc, calloc, realloc, free;
      live, pending, enabled := map[], map[], true;
    }

    /** Removes `addrs` in order, ignoring failures. */
    method RemoveAll(dbg: Debugger, addrs: seq<Word>)
      requires dbg.Valid()
      modifies dbg`breakpoints, dbg`table, dbg`at, dbg.target`state, dbg.breakpoints.Values
      ensures dbg.Valid() && dbg.breakpoints.Values <= old(dbg.breakpoints.Values)
      ensures dbg.Abs() == Unplant(old(dbg.Abs()), addrs)
    {
      var i := 0;
      while i < |addrs|
        invariant 0 <= i <= |addrs| && dbg.Valid() && dbg.breakpoints.Values <= old(dbg.breakpoints.Values)
        invariant Unplant(dbg.Abs(), addrs[i..]) == Unplant(old(dbg.Abs()), addrs)
      {
        assert addrs[i..][1..] == addrs[i + 1..];
        var removed := dbg.RemoveBreakpoint(addrs[i]);
        i := i + 1;
      }
    }

    /** The return breakpoints go in whatever `order` the map yields its keys. */
    method Disable(dbg: Debugger) returns (ghost order: seq<Word>)
      requires dbg.Valid()
      modifies this`pending, this`enabled, dbg`breakpoints, dbg`table, dbg`at, dbg.target`state, dbg.breakpoints.Values
      ensures dbg.Valid()
      ensures Elems(order) == old(pending).Keys
      ensures dbg.Abs() == Unplant(Unplant(old(dbg.Abs()), Entries(old(Abs()))), order)
      ensures Abs() == old(Abs()).(enabled := false, pending := map[])
    {
      hide Unplant, EntriesOf;
      RemoveAll(dbg, EntriesOf(malloc, calloc, realloc, free));
      var listed := InSomeOrder(pending.Keys);
      RemoveAll(dbg, listed);
      pending, enabled, order := map[], false, listed;
    }

    method Drop(ptr: Word)
      modifies this`live
      ensures Abs() == Forget(old(Abs()), ptr)
    {
      if ptr != 0 { live := live - {ptr}; }
    }

    method Push(dbg: Debugger, regs: Regs, size: Word) returns (handled: Option<bool>)
      requires dbg.Valid()
      modifies this`pending, dbg`breakpoints, dbg`table, dbg.target`state
      ensures dbg.Valid() && fresh(dbg.breakpoints.Values - old(dbg.breakpoints.Values))
      ensures (Abs(), dbg.Abs(), handled) == PushPending(old(Abs()), old(dbg.Abs()), regs, size)
    {
      hide ReadWord, SetBp;
      var site := dbg.ReadWordAt(regs.rsp);
      if site.None? { return None; }
      if site.value !in pending {
        var ok := dbg.SetBreakpoint(site.value);
        if !ok { return None; }
      }
      var before := if site.value in pending then pending[site.value] else [];
      pending := pending[site.value := before + [AllocInfo(size, site.value)]];
      handled := Some(true);
    }

    /** Takes the newest call off the pending ones and notes its block. */
    method TakeNewest(pc: Word, ptr: Word)
      requires pc in pending
      modifies this`live, this`pending
      ensures Abs() == PopReturn(old(Abs()), pc, ptr)
    {
      var calls := pending[pc];
      if calls != [] {
        var last := calls[|calls| - 1];
        calls := calls[..|calls| - 1];
        pending := pending[pc := calls];
        if ptr != 0 {
          live := live[ptr := last];
        }
      }
      if calls == [] {
        assert pending - {pc} == old(pending) - {pc};
        pending := pending - {pc};
      }
    }

    /** A stop at a return address: pops the newest call, and its breakpoint with the last. */
    method Pop(dbg: Debugger, pc: Word, ptr: Word)
      requires dbg.Valid() && pc in pending
      modifies this`live, this`pending, dbg`breakpoints, dbg`table, dbg`at, dbg.target`state, dbg.breakpoints.Values
      ensures dbg.Valid() && dbg.breakpoints.Values <= old(dbg.breakpoints.Values)
      ensures Abs() == PopReturn(old(Abs()), pc, ptr)
      ensures dbg.Abs() == if pc in pending then old(dbg.Abs()) else RemoveBp(old(dbg.Abs()), pc).0
    {
      hide PopReturn, RemoveBp;
      TakeNewest(pc, ptr);
      if pc !in pending {
        var removed := dbg.RemoveBreakpoint(pc);
      }
    }

    /** A `realloc` gives its block up before it asks for another. */
    method Reallocate(dbg: Debugger, r: Regs) returns (handled: Option<bool>)
      requires dbg.Valid()
      modifies this`live, this`pending, dbg`breakpoints, dbg`table, dbg.target`state
      ensures dbg.Valid() && fresh(dbg.breakpoints.Values - old(dbg.breakpoints.Values))
      ensures (Abs(), dbg.Abs(), handled) == PushPending(Forget(old(Abs()), r.rdi), old(dbg.Abs()), r, r.rsi)
    {
      hide PushPending, Forget;
      Drop(r.rdi);
      handled := Push(dbg, r, r.rsi);
    }

    /** What the registers say the target is about to do. */
    method Dispatch(dbg: Debugger, r: Regs) returns (handled: Option<bool>)
      requires dbg.Valid()
      modifies this, dbg`breakpoints, dbg`table, dbg`at, dbg.target`state, dbg.breakpoints.Values
      ensures dbg.Valid() && fresh(dbg.breakpoints.Values - old(dbg.breakpoints.Values))
      ensures (Abs(), dbg.Abs(), handled) == OnRegs(old(Abs()), old(dbg.Abs()), r)
    {
      hide PushPending, PopReturn, Forget, RemoveBp, SaturatingMul;
      if malloc == Some(r.pc) {
        handled := Push(dbg, r, r.rdi);
      } else if calloc == Some(r.pc) {
        handled := Push(dbg, r, SaturatingMul(r.rdi, r.rsi));
      } else if realloc == Some(r.pc) {
        handled := Reallocate(dbg, r);
      } else if free == Some(r.pc) {
        Drop(r.rdi);
        handled := Some(true);
      } else if r.pc in pending {
        Pop(dbg, r.pc, r.rax);
        handled := Some(true);
      } else {
        handled := Some(false);
      }
    }

    method HandleStop(dbg: Debugger) returns (handled: Option<bool>)
      requires dbg.Valid()
      modifies this, dbg`breakpoints, dbg`table, dbg`at, dbg.target`state, dbg.breakpoints.Values
      ensures dbg.Valid() && fresh(dbg.breakpoints.Values - old(dbg.breakpoints.Values))
      ensures (Abs(), dbg.Abs(), handled) == OnStop(old(Abs()), old(dbg.Abs()))
    {
      hide OnRegs, CurrentRegs;
      if !enabled { return Some(false); }
      var regs := dbg.Registers();
      if regs.None? { return None; }
      handled := Dispatch(dbg, regs.value);
    }
  }

  /** The loop around `cont` that hides the tracker's own stops. */
  method ContinueHidden(dbg: Debugger, tracker: LeakTracker, initial: Status, envs: seq<(Env, Env)>)
    returns (out: Option<Outcome>)
    requires dbg.Valid()
    requires forall i :: 0 <= i < |envs| ==> Distinct(envs[i].0.listing) && Distinct(envs[i].1.listing)
    modifies tracker, dbg, dbg.target, dbg.breakpoints.Values
    ensures dbg.Valid()
    ensures (tracker.Abs(), dbg.Abs(), out)
         == AutoCont(dbg.platform, old(tracker.Abs()), old(dbg.Abs()), initial, envs)
  {
    hide OnStop, Cont;
    var status, i := initial, 0;
    while status.Stopped?
      invariant 0 <= i <= |envs| && dbg.Valid()
      invariant fresh(dbg.breakpoints.Values - old(dbg.breakpoints.Values))
      invariant AutoCont(dbg.platform, tracker.Abs(), dbg.Abs(), status, envs[i..])
             == AutoCont(dbg.platform, old(tracker.Abs()), old(dbg.Abs()), initial, envs)
      decreases |envs| - i
    {
      var handled := tracker.HandleStop(dbg);
      if handled.None? { return Some(Failed); }
      if !handled.value { break; }
      if i == |envs| { return None; }
      assert envs[i..][1..] == envs[i + 1..];
      var next := dbg.Continue(envs[i].0, envs[i].1);
      if !next.Done? { return Some(next); }
      status, i := next.status, i + 1;
    }
    out := Some(Done(status));
  }
}
