/** The debugger as the object it is: fields updated in place by its methods. Each public
    method is proved to do to the abstract state what the function of module `Engine`
    says, so every theorem about those functions is one about these methods. */
module DebuggerObject {
  import opened Words
  import opened Machine
  import opened Disasm
  import opened Engine

  /** The traced process behind the Mach and ptrace calls. */
  class Target {
    var alive: bool
    var state: State

    constructor (state: State)
      ensures alive && this.state == state
    {
      alive := true;
      this.state := state;
    }

    /** `mach::read_memory`: an error when the target is gone or the range is unmapped. */
    method ReadMemory(a: Word, n: nat) returns (r: Option<seq<Byte>>)
      ensures r == if n == 0 then Some([])
                   else if alive && RangeMapped(state.mem, a, n) then Some(Slice(state.mem, a, n)) else None
    {
      if n == 0 { return Some([]); }
      if !alive || a + n > WORD { return None; }
      var bytes: seq<Byte> := [];
      var i := 0;
      while i < n
        invariant 0 <= i <= n && |bytes| == i
        invariant forall x: Word :: a <= x < a + i ==> x in state.mem
        invariant forall j :: 0 <= j < i ==> bytes[j] == state.mem[a + j]
      {
        var x: Word := a + i;
        if x !in state.mem { return None; }
        bytes := bytes + [state.mem[x]];
        i := i + 1;
      }
      assert bytes == Slice(state.mem, a, n);
      r := Some(bytes);
    }

    method WriteMemory(a: Word, data: seq<Byte>) returns (ok: bool)
      modifies this`state
      ensures ok == (alive && RangeMapped(old(state).mem, a, |data|))
      ensures state == if ok then old(state).(mem := Overwrite(old(state).mem, a, data)) else old(state)
    {
      ok := alive && RangeMapped(state.mem, a, |data|);
      if ok {
        state := state.(mem := Overwrite(state.mem, a, data));
      }
    }

    /** PT_CONTINUE and the wait, up to the stop described by `env`. */
    method Resume(isa: Isa, env: Env)
      requires alive
      modifies this
      ensures state == Run(isa, Settle(old(state)), env.sched)
      ensures alive == env.event.StopEvent?
    {
      state := Settle(state);
      var i := 0;
      while i < |env.sched|
        invariant 0 <= i <= |env.sched|
        invariant Run(isa, state, env.sched[i..]) == Run(isa, Settle(old(state)), env.sched)
        invariant alive
      {
        state := Step(isa, state, env.sched[i]);
        assert env.sched[i..][1..] == env.sched[i + 1..];
        i := i + 1;
      }
      alive := env.event.StopEvent?;
    }
  }

  lemma OverwriteOne(mem: Memory, a: Word, b: Byte)
    ensures RangeMapped(mem, a, 1) <==> a in mem
    ensures a in mem ==> Overwrite(mem, a, [b]) == mem[a := b] && Slice(mem, a, 1) == [mem[a]]
  {
    assert a in mem ==> RangeMapped(mem, a, 1);
  }

  class Breakpoint {
    const addr: Word
    var enabled: bool
    var saved: seq<Byte>

    constructor (addr: Word)
      ensures this.addr == addr && !enabled && saved == []
    {
      this.addr := addr;
      enabled, saved := false, [];
    }

    ghost function Abs(): Bp
      reads this
    {
      Bp(enabled, saved)
    }

    /** Saves the byte at the address and writes `int3` over it. */
    method Enable(target: Target) returns (ok: bool)
      modifies this, target`state
      ensures old(enabled) ==> ok && Abs() == old(Abs()) && target.state == old(target.state)
      ensures !old(enabled) ==> ok == (target.alive && addr in old(target.state).mem)
      ensures !old(enabled) && ok ==>
        && Abs() == Bp(true, [old(target.state).mem[addr]])
        && target.state == old(target.state).(mem := old(target.state).mem[addr := INT3])
      ensures !ok ==> Abs() == old(Abs()) && target.state == old(target.state)
    {
      if enabled { return true; }
      OverwriteOne(target.state.mem, addr, INT3);
      var bytes := target.ReadMemory(addr, 1);
      if bytes.None? { return false; }
      saved := bytes.value;
      ok := target.WriteMemory(addr, [INT3]);
      enabled := ok;
    }

    /** Writes the saved byte back. */
    method Disable(target: Target) returns (ok: bool)
      requires enabled ==> |saved| == 1
      modifies this`enabled, target`state
      ensures ok == (!old(enabled) || (target.alive && addr in old(target.state).mem))
      ensures target.state == if old(enabled) && ok
                              then old(target.state).(mem := old(target.state).mem[addr := saved[0]])
                              else old(target.state)
      ensures enabled == (old(enabled) && !ok)
    {
      if !enabled { return true; }
      OverwriteOne(target.state.mem, addr, saved[0]);
      assert saved == [saved[0]];
      ok := target.WriteMemory(addr, saved);
      enabled := !ok;
    }

    method ReEnable(target: Target) returns (ok: bool)
      modifies this, target`state
      ensures old(enabled) ==> ok && Abs() == old(Abs()) && target.state == old(target.state)
      ensures !old(enabled) ==> ok == (target.alive && addr in old(target.state).mem)
      ensures !old(enabled) && ok ==>
        && Abs() == Bp(true, [old(target.state).mem[addr]])
        && target.state == old(target.state).(mem := old(target.state).mem[addr := INT3])
      ensures !ok ==> Abs() == old(Abs()) && target.state == old(target.state)
    {
      ok := true;
      if !enabled { ok := Enable(target); }
    }
  }

  class Debugger {
    const platform: Platform
    const target: Target
    var breakpoints: map<Word, Breakpoint>
    ghost var table: map<Word, Bp> // the values of `breakpoints`
    var at: Option<Word>
    var threads: seq<Tid>
    var current: nat
    var last: Option<Status>

    constructor (platform: Platform, target: Target, listing: seq<Tid>)
      requires Distinct(listing)
      ensures Valid() && breakpoints == map[] && this.target == target && this.platform == platform
      ensures Abs() == Dbg(target.alive, target.state, map[], None, listing, 0, None)
    {
      this.platform := platform;
      this.target := target;
      breakpoints, table, at, threads, current, last := map[], map[], None, listing, 0, None;
    }

    ghost predicate Valid()
      reads this`breakpoints, this`table, this`threads, breakpoints.Values
    {
      && breakpoints.Keys == table.Keys
      && (forall a :: a in breakpoints ==>
          && breakpoints[a].addr == a && breakpoints[a].Abs() == table[a]
          && (table[a].enabled ==> |table[a].saved| == 1))
      && Distinct(threads)
    }

    ghost function Abs(): Dbg
      reads this, target
    {
      Dbg(target.alive, target.state, table, at, threads, current, last)
    }

    method SetBreakpoint(a: Word) returns (ok: bool)
      requires Valid()
      modifies this`breakpoints, this`table, target`state
      ensures Valid() && fresh(breakpoints.Values - old(breakpoints.Values))
      ensures (Abs(), ok) == SetBp(old(Abs()), a)
    {
      var bp := new Breakpoint(a);
      ok := bp.Enable(target);
      if ok {
        breakpoints, table := breakpoints[a := bp], table[a := bp.Abs()];
      }
    }

    /** Takes the breakpoint at `a` out of the table and its patch out of memory. */
    method TakeOut(a: Word) returns (bp: Breakpoint, ok: bool)
      requires Valid() && a in breakpoints
      modifies this`breakpoints, this`table, target`state, breakpoints.Values
      ensures Valid() && breakpoints.Values <= old(breakpoints.Values)
      ensures bp in old(breakpoints.Values) && bp !in breakpoints.Values && bp.addr == a
      ensures (Abs(), ok) == Disable(old(Abs()).(bps := old(table) - {a}), a, old(table)[a])
      ensures ok ==> !bp.enabled
      ensures a !in breakpoints
    {
      bp := breakpoints[a];
      breakpoints, table := breakpoints - {a}, table - {a};
      ok := bp.Disable(target);
    }

    method RemoveBreakpoint(a: Word) returns (ok: bool)
      requires Valid()
      modifies this`breakpoints, this`table, this`at, target`state, breakpoints.Values
      ensures Valid() && breakpoints.Values <= old(breakpoints.Values)
      ensures (Abs(), ok) == RemoveBp(old(Abs()), a)
    {
      if a in breakpoints {
        var _, disarmed := TakeOut(a);
        if !disarmed { return false; }
      }
      hide Disable;
      if at == Some(a) {
        at := None;
      }
      ok := true;
    }

    /** Raw bytes, with the original byte put over every patch in the range. */
    method ReadMemory(a: Word, n: nat) returns (r: Option<seq<Byte>>)
      requires Valid()
      ensures r == ReadMem(Abs(), a, n)
    {
      r := target.ReadMemory(a, n);
      if r.None? || n == 0 { return; }
      var buf := r.value;
      var keys := breakpoints.Keys;
      ghost var raw, saved := target.state.mem, Saved(table);
      while keys != {}
        invariant keys <= breakpoints.Keys && |buf| == n
        invariant forall i :: 0 <= i < n ==>
          buf[i] == if a + i in saved && a + i !in keys then saved[a + i] else raw[a + i]
        decreases keys
      {
        var x :| x in keys;
        var bp := breakpoints[x];
        assert bp.Abs() == table[x];
        if bp.enabled && a <= x < a + n {
          buf := buf[x - a := bp.saved[0]];
        }
        keys := keys - {x};
      }
      assert buf == Slice(raw + saved, a, n);
      r := Some(buf);
    }

    method RefreshThreads(listing: seq<Tid>)
      requires Distinct(listing)
      modifies this`threads, this`current
      ensures Abs() == Refresh(old(Abs()), listing)
    {
      var old_tid := if current < |threads| then Some(threads[current]) else None;
      current := 0;
      if old_tid.Some? {
        var i := 0;
        while i < |listing| && listing[i] != old_tid.value
          invariant 0 <= i <= |listing| && old_tid.value !in listing[..i]
        {
          i := i + 1;
        }
        IndexOfIs(listing, old_tid.value, i);
        current := if i < |listing| then i else 0;
      }
      threads := listing;
    }

    /** The registers of the selected thread; an error when it or the target is gone. */
    method Registers() returns (r: Option<Regs>)
      ensures r == CurrentRegs(Abs())
    {
      if target.alive && current < |threads| && threads[current] in target.state.threads {
        r := Some(target.state.threads[threads[current]]);
      } else {
        r := None;
      }
    }

    /** PT_CONTINUE, the wait, and the bookkeeping that follows it. */
    method ContinueAndWait(env: Env)
      requires Valid() && target.alive && Distinct(env.listing)
      modifies this`threads, this`current, this`last, target
      ensures Valid() && Abs() == Resume(platform.isa, old(Abs()), env)
      ensures unchanged(this`breakpoints)
    {
      target.Resume(platform.isa, env);
      match env.event
      case StopEvent(signal) =>
        RefreshThreads(env.listing);
        var regs := Registers();
        last := Some(Stopped(signal, if regs.Some? then regs.value.pc else 0));
      case ExitEvent(code) => last := Some(Exited(code));
      case KillEvent(signal) => last := Some(Signaled(signal));
    }

    /** Is there an enabled breakpoint at `a`? */
    predicate Armed(a: Word)
      requires Valid()
      reads this`breakpoints, this`table, this`threads, breakpoints.Values
      ensures Armed(a) == IsArmed(Dbg(true, State(map[], map[], {}), table, None, [], 0, None), a)
    {
      a in breakpoints && breakpoints[a].enabled
    }

    /** Moves thread `i` back in front of the armed byte it stands one past, if it does;
        `d` is the session before the walk over the threads. */
    method RewindThread(i: nat, ghost d: Dbg) returns (trapped: bool)
      requires Valid() && i < |threads| && threads == d.threads && table == d.bps
      requires target.state == d.target.(threads := RewoundIn(d, threads[..i]))
      modifies target`state
      ensures trapped == LooksTrapped(d, threads[i])
      ensures target.state == d.target.(threads := RewoundIn(d, threads[..i + 1]))
    {
      var t := threads[i];
      assert t !in threads[..i];
      RewoundInExtends(d, threads, i);
      trapped := false;
      if t in target.state.threads {
        var r := target.state.threads[t];
        trapped := Armed(Dec(r.pc));
        if trapped {
          target.state := target.state.(threads := target.state.threads[t := r.(pc := Dec(r.pc))]);
        }
      }
    }

    /** Rewinds every thread that looks trapped; returns the first of them. */
    method RewindTrapped() returns (hit: nat)
      requires Valid()
      modifies target`state
      ensures target.state == old(target.state).(threads := Rewound(old(Abs())))
      ensures hit == FirstHit(old(Abs()), threads)
    {
      ghost var d := Abs();
      hit := |threads|;
      WalkStarts(d);
      assert threads == d.threads && table == d.bps && target.state == d.target;
      hide *;
      for i := 0 to |threads|
        invariant Valid() && Walked(d, i, target.state, hit)
      {
        WalkedBy(d, i, target.state, hit);
        var trapped := RewindThread(i, d);
        WalkSteps(d, i, target.state, hit, trapped);
        if trapped && hit == |threads| {
          hit := i;
        }
      }
      WalkEnds(d, target.state, hit);
    }

    /** Selects thread `i`, reported at the PC it has now. */
    method SelectHit(i: nat)
      requires Valid() && i < |threads| && threads[i] in target.state.threads
      modifies this`at, this`current, this`last
      ensures Valid() && unchanged(this`breakpoints)
      ensures var a := target.state.threads[threads[i]].pc;
        Abs() == old(Abs()).(at := Some(a), current := i, last := Some(Stopped(SIGTRAP, a)))
    {
      var pc := target.state.threads[threads[i]].pc;
      at, current, last := Some(pc), i, Some(Stopped(SIGTRAP, pc));
    }

    method HandleBreakpointHit()
      requires Valid()
      modifies this`at, this`current, this`last, target`state
      ensures Valid() && Abs() == Handle(old(Abs()))
      ensures unchanged(this`breakpoints)
    {
      if last.Some? && last.value.Stopped? && last.value.signal == SIGTRAP {
        ghost var d := Abs();
        HitIsRewound(d);
        hide FirstHit, Rewound, LooksTrapped;
        var hit := RewindTrapped();
        if hit < |threads| {
          SelectHit(hit);
        }
      }
    }

    method ResumeAndHandle(env: Env)
      requires Valid() && target.alive && Distinct(env.listing)
      modifies this`at, this`threads, this`current, this`last, target
      ensures Valid() && Abs() == Handle(Resume(platform.isa, old(Abs()), env)) && last.Some?
      ensures unchanged(this`breakpoints)
    {
      ContinueAndWait(env);
      HandleBreakpointHit();
    }

    method PlantTemporaries(candidates: seq<Word>) returns (planted: seq<Word>)
      requires Valid()
      modifies this`breakpoints, this`table, target`state
      ensures Valid() && fresh(breakpoints.Values - old(breakpoints.Values))
      ensures (Abs(), planted) == Plant(old(Abs()), candidates)
    {
      planted := [];
      ghost var d := Abs();
      assert candidates[0..] == candidates;
      var i := 0;
      while i < |candidates|
        invariant 0 <= i <= |candidates|
        invariant Valid() && fresh(breakpoints.Values - old(breakpoints.Values))
        invariant Plant(d, candidates).0 == Plant(Abs(), candidates[i..]).0
        invariant Plant(d, candidates).1 == planted + Plant(Abs(), candidates[i..]).1
      {
        var a := candidates[i];
        ghost var rest := Plant(PlantOne(Abs(), a).0, candidates[i + 1..]).1;
        assert planted + ([a] + rest) == (planted + [a]) + rest && planted + ([] + rest) == planted + rest;
        assert candidates[i..][0] == a && candidates[i..][1..] == candidates[i + 1..];
        if !Armed(a) {
          var ok := SetBreakpoint(a);
          if ok {
            planted := planted + [a];
          }
        }
        i := i + 1;
      }
      assert candidates[i..] == [] && planted + [] == planted;
    }

    method RemoveTemporaries(planted: seq<Word>)
      requires Valid()
      modifies this`breakpoints, this`table, this`at, target`state, breakpoints.Values
      ensures Valid() && breakpoints.Values <= old(breakpoints.Values)
      ensures Abs() == Unplant(old(Abs()), planted)
    {
      ghost var d := Abs();
      assert planted[0..] == planted;
      var i := 0;
      while i < |planted|
        invariant 0 <= i <= |planted|
        invariant Valid() && breakpoints.Values <= old(breakpoints.Values)
        invariant Unplant(d, planted) == Unplant(Abs(), planted[i..])
      {
        assert planted[i..][0] == planted[i] && planted[i..][1..] == planted[i + 1..];
        var _ := RemoveBreakpoint(planted[i]);
        i := i + 1;
      }
    }

    /** One instruction of the selected thread, by temporary breakpoints at the places
        it may go to. */
    method StepCurrentThread(env: Env) returns (out: Outcome)
      requires Valid() && Distinct(env.listing)
      modifies this, target, breakpoints.Values
      ensures Valid() && fresh(breakpoints.Values - old(breakpoints.Values))
      ensures (Abs(), out) == StepCurrent(platform, old(Abs()), env)
    {
      var regs := Registers();
      if regs.None? { return Failed; }
      var pc := regs.value.pc;
      var code := ReadMemory(pc, 16);
      var planted := PlantTemporaries(StepTargets(platform.decode(code.GetOr([])), pc));
      ResumeAndHandle(env);
      out := Done(last.value);
      RemoveTemporaries(planted);
    }

    /** Arms a disabled breakpoint again and puts it back into the table. */
    method PutBack(bp: Breakpoint) returns (ok: bool)
      requires Valid() && !bp.enabled && bp !in breakpoints.Values
      modifies this`breakpoints, this`table, target`state, bp
      ensures Valid() && breakpoints.Values <= old(breakpoints.Values) + {bp}
      ensures (Abs(), ok) == SetBp(old(Abs()), bp.addr)
    {
      ok := bp.ReEnable(target);
      if ok {
        breakpoints, table := breakpoints[bp.addr := bp], table[bp.addr := bp.Abs()];
      }
    }

    method SetPc(a: Word)
      requires Valid() && CurrentRegs(Abs()).Some?
      modifies target`state
      ensures Abs() == ForcePc(old(Abs()), a)
    {
      var t := threads[current];
      target.state := target.state.(threads := target.state.threads[t := target.state.threads[t].(pc := a)]);
    }

    method StepAndPutBack(bp: Breakpoint, env: Env) returns (out: Outcome)
      requires Valid() && !bp.enabled && bp !in breakpoints.Values && bp.addr !in breakpoints
      requires Distinct(env.listing) && CurrentRegs(Abs()).Some?
      modifies this, target, breakpoints.Values, bp
      ensures Valid() && fresh(breakpoints.Values - old(breakpoints.Values) - {bp})
      ensures (Abs(), out) == StepAndRearm(platform, old(Abs()), bp.addr, env)
    {
      hide StepCurrent, ForcePc, CurrentRegs;
      SetPc(bp.addr);
      out := StepCurrentThread(env);
      if out.Done? {
        var ok := PutBack(bp);
        if !ok { out := Failed; }
      }
    }

    /** Disarm, put the PC back, single-step, re-arm. An error on the way leaves the
        breakpoint out of the table. */
    method StepOverBreakpoint(a: Word, env: Env) returns (out: Outcome)
      requires Valid() && Distinct(env.listing)
      modifies this, target, breakpoints.Values
      ensures Valid() && fresh(breakpoints.Values - old(breakpoints.Values))
      ensures (Abs(), out) == StepOver(platform, old(Abs()), a, env)
    {
      hide StepAndRearm, Disable, CurrentRegs;
      if a !in breakpoints { return Panicked; }
      out := Failed;
      var bp, disarmed := TakeOut(a);
      var regs := Registers();
      if disarmed && regs.Some? {
        out := StepAndPutBack(bp, env);
      }
    }

    /** Records that the selected thread stands at a breakpoint. */
    method NoteLandingSite()
      requires Valid()
      modifies this`at
      ensures Valid() && Abs() == NoteLanding(old(Abs()))
    {
      var regs := Registers();
      if regs.Some? && Armed(regs.value.pc) {
        at := Some(regs.value.pc);
      }
    }

    method StepInstruction(env: Env) returns (out: Outcome)
      requires Valid() && Distinct(env.listing)
      modifies this, target, breakpoints.Values
      ensures Valid() && fresh(breakpoints.Values - old(breakpoints.Values))
      ensures (Abs(), out) == StepI(platform, old(Abs()), env)
    {
      hide StepOver, StepCurrent, NoteLanding;
      if at.Some? {
        var a := at.value;
        at := None;
        out := StepOverBreakpoint(a, env);
      } else {
        out := StepCurrentThread(env);
      }
      if !out.Done? { return; }
      NoteLandingSite();
      out := if last.Some? then Done(last.value) else Panicked;
    }

    method ContinueToStop(env: Env) returns (out: Outcome)
      requires Valid() && Distinct(env.listing)
      modifies this, target
      ensures Valid() && unchanged(this`breakpoints)
      ensures (Abs(), out) == ContMain(platform, old(Abs()), env)
    {
      if !target.alive { return Failed; }
      ResumeAndHandle(env);
      out := Done(last.value);
    }

    method Continue(e1: Env, e2: Env) returns (out: Outcome)
      requires Valid() && Distinct(e1.listing) && Distinct(e2.listing)
      modifies this, target, breakpoints.Values
      ensures Valid() && fresh(breakpoints.Values - old(breakpoints.Values))
      ensures (Abs(), out) == Cont(platform, old(Abs()), e1, e2)
    {
      hide StepOver, ContMain;
      if at.Some? {
        var a := at.value;
        at := None;
        out := StepOverBreakpoint(a, e1);
        if !out.Done? { return; }
        if last.None? || !last.value.Stopped? {
          return if last.Some? then Done(last.value) else Panicked;
        }
      }
      out := ContinueToStop(e2);
    }

    method ReadWordAt(a: Word) returns (r: Option<Word>)
      requires Valid()
      ensures r == ReadWord(Abs(), a)
    {
      var bytes := ReadMemory(a, 8);
      r := if bytes.Some? then Some(WordFromLe(bytes.value)) else None;
    }

    /** Judges the phase of the prologue from the bytes at the PC. */
    method FindReturnAddress() returns (r: Option<Word>)
      requires Valid()
      ensures r == ReturnAddress(Abs())
    {
      var regs := Registers();
      if regs.None? { return None; }
      var bytes := ReadMemory(regs.value.pc, 3);
      var insn := bytes.GetOr([]);
      if |insn| > 0 && insn[0] == PUSH_RBP {
        r := ReadWordAt(regs.value.rsp);
      } else if insn == MOV_RBP_RSP {
        r := ReadWordAt(Plus(regs.value.rsp, 8));
      } else {
        r := ReadWordAt(Plus(regs.value.rbp, 8));
      }
    }

    /** Takes the temporary breakpoint of `finish` away again. */
    method WithdrawFrom(ret: Word, status: Status) returns (out: Outcome)
      requires Valid()
      modifies this`breakpoints, this`table, this`at, target`state, breakpoints.Values
      ensures Valid() && breakpoints.Values <= old(breakpoints.Values)
      ensures (Abs(), out) == Withdraw(old(Abs()), ret, Done(status))
    {
      hide RemoveBp;
      out := Done(status);
      if status.Stopped? {
        var removed := RemoveBreakpoint(ret);
        if !removed { out := Failed; }
      } else {
        breakpoints, table := breakpoints - {ret}, table - {ret};
      }
    }

    method RunToAddress(ret: Word, e1: Env, e2: Env) returns (out: Outcome)
      requires Valid() && Distinct(e1.listing) && Distinct(e2.listing)
      modifies this, target, breakpoints.Values
      ensures Valid() && fresh(breakpoints.Values - old(breakpoints.Values))
      ensures (Abs(), out) == RunTo(platform, old(Abs()), ret, e1, e2)
    {
      hide SetBp, Cont;
      var existing := ret in breakpoints;
      if !existing {
        var ok := SetBreakpoint(ret);
        if !ok { return Failed; }
      }
      out := Continue(e1, e2);
      if existing || !out.Done? { return; }
      out := WithdrawFrom(ret, out.status);
    }

    method FinishFunction(e1: Env, e2: Env) returns (out: Outcome)
      requires Valid() && Distinct(e1.listing) && Distinct(e2.listing)
      modifies this, target, breakpoints.Values
      ensures Valid() && fresh(breakpoints.Values - old(breakpoints.Values))
      ensures (Abs(), out) == Finish(platform, old(Abs()), e1, e2)
    {
      var ret := FindReturnAddress();
      if ret.None? { return Failed; }
      out := RunToAddress(ret.value, e1, e2);
    }

    method SelectThread(i: nat) returns (ok: bool)
      requires Valid()
      modifies this`current
      ensures Valid() && (Abs(), ok) == Select(old(Abs()), i)
    {
      ok := i < |threads|;
      if ok {
        current := i;
      }
    }

    method WriteMemory(a: Word, data: seq<Byte>) returns (ok: bool)
      requires Valid()
      modifies target`state
      ensures Valid() && (Abs(), ok) == WriteMem(old(Abs()), a, data)
    {
      ok := target.WriteMemory(a, data);
    }
  }

  lemma {:induction false} IndexOfIs(s: seq<Tid>, t: Tid, i: nat)
    requires i <= |s| && t !in s[..i] && (i < |s| ==> s[i] == t)
    ensures IndexOf(s, t) == i
  {
    if i > 0 {
      assert s[..i][0] == s[0] && s[..i][1..] == s[1..][..i - 1];
      IndexOfIs(s[1..], t, i - 1);
    }
  }

  /** The threads with those of `some` rewound that look trapped. */
  ghost function RewoundIn(d: Dbg, some: seq<Tid>): map<Tid, Regs> {
    map t | t in d.target.threads ::
      if t in some && LooksTrapped(d, t)
      then d.target.threads[t].(pc := Dec(d.target.threads[t].pc)) else d.target.threads[t]
  }

  lemma RewoundInExtends(d: Dbg, threads: seq<Tid>, i: nat)
    requires i < |threads| && threads[i] !in threads[..i]
    ensures var t, before, next := threads[i], RewoundIn(d, threads[..i]), RewoundIn(d, threads[..i + 1]);
      if t in before && Dec(before[t].pc) in d.bps && d.bps[Dec(before[t].pc)].enabled
      then LooksTrapped(d, t) && next == before[t := before[t].(pc := Dec(before[t].pc))]
      else !LooksTrapped(d, t) && next == before
  {
    assert threads[..i + 1] == threads[..i] + [threads[i]];
  }

  /** The PC the first thread hit has after the rewind. */
  lemma HitIsRewound(d: Dbg)
    ensures var i := FirstHit(d, d.threads);
      i < |d.threads| ==>
        && d.threads[i] in d.target.threads && d.threads[i] in Rewound(d)
        && Rewound(d)[d.threads[i]].pc == Dec(d.target.threads[d.threads[i]].pc)
  {
    var i := FirstHit(d, d.threads);
    if i < |d.threads| {
      assert LooksTrapped(d, d.threads[i]) && d.threads[i] in d.threads;
    }
    hide FirstHit;
  }

  /** The walk over the threads has done the first `i` of them and found `hit`. */
  ghost predicate Walked(d: Dbg, i: nat, state: State, hit: nat) {
    && i <= |d.threads|
    && state == d.target.(threads := RewoundIn(d, d.threads[..i]))
    && hit == if FirstHit(d, d.threads) < i then FirstHit(d, d.threads) else |d.threads|
  }

  lemma WalkStarts(d: Dbg)
    ensures Walked(d, 0, d.target, |d.threads|)
  {
    RewoundInEnds(d);
  }

  lemma WalkedBy(d: Dbg, i: nat, state: State, hit: nat)
    requires Walked(d, i, state, hit)
    ensures i <= |d.threads| && state == d.target.(threads := RewoundIn(d, d.threads[..i]))
    ensures hit == if FirstHit(d, d.threads) < i then FirstHit(d, d.threads) else |d.threads|
  {
  }

  lemma WalkSteps(d: Dbg, i: nat, state: State, hit: nat, trapped: bool)
    requires i < |d.threads| && trapped == LooksTrapped(d, d.threads[i])
    requires hit == if FirstHit(d, d.threads) < i then FirstHit(d, d.threads) else |d.threads|
    requires state == d.target.(threads := RewoundIn(d, d.threads[..i + 1]))
    ensures Walked(d, i + 1, state, if trapped && hit == |d.threads| then i else hit)
  {
    hide RewoundIn, LooksTrapped;
  }

  lemma WalkEnds(d: Dbg, state: State, hit: nat)
    requires Walked(d, |d.threads|, state, hit)
    ensures state == d.target.(threads := Rewound(d)) && hit == FirstHit(d, d.threads)
  {
    RewoundInEnds(d);
    assert d.threads[..|d.threads|] == d.threads;
    hide RewoundIn, Rewound, FirstHit;
  }

  lemma RewoundInEnds(d: Dbg)
    ensures RewoundIn(d, d.threads[..0]) == d.target.threads
    ensures RewoundIn(d, d.threads) == Rewound(d)
  {
  }

  predicate Distinct(threads: seq<Tid>) {
    forall i, j :: 0 <= i < j < |threads| ==> threads[i] != threads[j]
  }
}
