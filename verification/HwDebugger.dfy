/** The ARM64 debugger as the object it is: two fixed arrays of slots, a thread list, and
    loops over both; each method is proved to be the function of module `HwSlots`. */
module HwDebuggerObject {
  import opened Words
  import opened Machine
  import E = Engine
  import H = HwSlots
  import opened DebugRegs

  /** The kernel's debug registers and PCs, reached one thread at a time. */
  class Kernel {
    var alive: bool
    var files: map<Tid, H.File>
    var pcs: map<Tid, Word>

    constructor (files: map<Tid, H.File>, pcs: map<Tid, Word>)
      ensures alive && this.files == files && this.pcs == pcs
    {
      alive, this.files, this.pcs := true, files, pcs;
    }

    ghost predicate Valid()
      reads this
    {
      forall t :: t in files ==> files[t].Shaped()
    }

    /** Get the debug state, change a slot, set the debug state. */
    method EditSlot(t: Tid, e: H.Edit) returns (ok: bool)
      requires Valid() && H.InRange(e)
      modifies this`files
      ensures Valid() && (ok <==> alive && t in old(files))
      ensures files == if ok then old(files)[t := H.Edited(old(files)[t], e)] else old(files)
    {
      ok := alive && t in files;
      if ok {
        files := files[t := H.Edited(files[t], e)];
      }
    }

    method Resume(env: H.HwEnv)
      requires Valid()
      modifies this
      ensures Valid() && alive == (old(alive) && env.event.StopEvent?)
      ensures env.event.StopEvent? ==> files == H.Survive(old(files), env.listing) && pcs == env.pcs
      ensures !env.event.StopEvent? ==> files == old(files) && pcs == old(pcs)
    {
      if env.event.StopEvent? {
        files, pcs := H.Survive(files, env.listing), env.pcs;
      } else {
        alive := false;
      }
    }
  }

  class HwDebugger {
    const kernel: Kernel
    const slots: array<Option<Word>>
    const watches: array<Option<Watch>>
    var threads: seq<H.Thread>
    var current: nat
    var bps: set<Word>
    var at: Option<Word>
    var last: Option<E.Status>

    constructor (kernel: Kernel)
      requires kernel.Valid()
      ensures Valid() && this.kernel == kernel && fresh(slots) && fresh(watches)
      ensures slots.Length == 16 && forall i :: 0 <= i < 16 ==> slots[i] == None
      ensures watches.Length == 4 && forall i :: 0 <= i < 4 ==> watches[i] == None
      ensures threads == [] && current == 0 && bps == {} && at == None && last == None
    {
      this.kernel := kernel;
      slots := new Option<Word>[H.BP_SLOTS](_ => None);
      watches := new Option<Watch>[H.WP_SLOTS](_ => None);
      threads, current, bps, at, last := [], 0, {}, None, None;
    }

    ghost predicate Valid()
      reads this, kernel
    {
      slots.Length == H.BP_SLOTS && watches.Length == H.WP_SLOTS && kernel.Valid()
    }

    ghost function Abs(): (h: H.Hw)
      requires Valid()
      reads this, kernel, slots, watches
      ensures H.Shaped(h)
    {
      H.Hw(kernel.alive, kernel.files, kernel.pcs, threads, current, slots[..], watches[..], bps, at, last)
    }

    /** `for t in &self.threads { mach::.._slot(t.port, ..)?; }` */
    method EditThreads(e: H.Edit) returns (ok: bool)
      requires Valid() && H.InRange(e)
      modifies kernel`files
      ensures Valid() && (Abs(), ok) == H.EditThreads(old(Abs()), e)
    {
      var i := 0;
      ghost var all := H.EditAll(kernel.alive, kernel.files, threads, e);
      while i < |threads|
        invariant 0 <= i <= |threads| && Valid()
        invariant H.EditAll(kernel.alive, kernel.files, threads[i..], e) == all
      {
        assert threads[i..][1..] == threads[i + 1..];
        ok := kernel.EditSlot(threads[i].tid, e);
        if !ok { return; }
        i := i + 1;
      }
      ok := true;
    }

    /** As above with failures ignored. */
    method ClearQuietly(i: nat)
      requires Valid() && i < H.BP_SLOTS && Distinct(threads)
      modifies kernel`files
      ensures Valid() && Abs() == old(Abs()).(files := H.ClearQuietly(old(Abs()), i))
    {
      ghost var h := Abs();
      ClearedEnds(h, i);
      assert threads[..0] == [];
      hide H.Edited, ClearedSoFar, H.ClearQuietly;
      var k := 0;
      while k < |threads|
        invariant 0 <= k <= |threads| && Valid()
        invariant kernel.files == ClearedSoFar(h, i, H.Tids(threads[..k]))
      {
        TidsNext(threads, k);
        ClearedNext(h, i, H.Tids(threads[..k]), threads[k].tid);
        var cleared := kernel.EditSlot(threads[k].tid, H.DisarmBp(i));
        k := k + 1;
      }
      assert threads[..|threads|] == threads;
    }

    method AllocSlot(a: Word) returns (slot: Option<nat>)
      requires Valid()
      modifies slots
      ensures Valid() && (Abs(), slot) == H.Alloc(old(Abs()), a)
    {
      for i := 0 to H.BP_SLOTS
        invariant slots[..] == old(slots[..])
        invariant forall j :: 0 <= j < i ==> slots[j].Some?
      {
        if slots[i] == None {
          slots[i] := Some(a);
          assert slots[..] == old(slots[..])[i := Some(a)];
          return Some(i);
        }
      }
      slot := None;
    }

    method ReleaseSlot(i: nat)
      requires Valid() && i < H.BP_SLOTS
      modifies slots
      ensures Valid() && Abs() == H.Release(old(Abs()), i)
    {
      slots[i] := None;
      assert slots[..] == old(slots[..])[i := None];
    }

    method FindSlot(a: Word) returns (slot: Option<nat>)
      requires Valid()
      ensures slot == if H.SlotOf(slots[..], a) < H.BP_SLOTS then Some(H.SlotOf(slots[..], a)) else None
    {
      for i := 0 to H.BP_SLOTS
        invariant forall j :: 0 <= j < i ==> slots[j] != Some(a)
      {
        if slots[i] == Some(a) {
          return Some(i);
        }
      }
      slot := None;
    }

    method SetBreakpoint(a: Word) returns (ok: bool)
      requires Valid()
      modifies this`bps, kernel`files, slots
      ensures Valid() && (Abs(), ok) == H.SetBp(old(Abs()), a)
    {
      var slot := AllocSlot(a);
      if slot.None? { return false; }
      ok := EditThreads(H.ArmBp(slot.value, a));
      if ok {
        bps := bps + {a};
      }
    }

    method RemoveBreakpoint(a: Word) returns (ok: bool)
      requires Valid()
      modifies this`bps, this`at, kernel`files, slots
      ensures Valid() && (Abs(), ok) == H.RemoveBp(old(Abs()), a)
    {
      var slot := FindSlot(a);
      if slot.Some? {
        ok := EditThreads(H.DisarmBp(slot.value));
        if !ok { return; }
        ReleaseSlot(slot.value);
      }
      bps := bps - {a};
      if at == Some(a) {
        at := None;
      }
      ok := true;
    }

    method FindWatch(a: Word) returns (slot: Option<nat>)
      requires Valid()
      ensures slot == if H.WatchSlotOf(watches[..], a) < H.WP_SLOTS then Some(H.WatchSlotOf(watches[..], a)) else None
    {
      for i := 0 to H.WP_SLOTS
        invariant forall j :: 0 <= j < i ==> !(watches[j].Some? && watches[j].value.addr == a)
      {
        if watches[i].Some? && watches[i].value.addr == a {
          return Some(i);
        }
      }
      slot := None;
    }

    method FreeWatchSlot() returns (i: nat)
      requires Valid()
      ensures i == H.FirstFree(watches[..])
    {
      i := 0;
      while i < H.WP_SLOTS && watches[i].Some?
        invariant 0 <= i <= H.WP_SLOTS && forall j :: 0 <= j < i ==> watches[j].Some?
      {
        i := i + 1;
      }
    }

    method SetWatchpoint(w: Watch) returns (slot: Option<nat>)
      requires Valid()
      modifies kernel`files, watches
      ensures Valid() && (Abs(), slot) == H.SetWatch(old(Abs()), w)
    {
      hide H.EditThreads;
      slot := FindWatch(w.addr);
      if slot.Some? { return; }
      var free := FreeWatchSlot();
      if free == H.WP_SLOTS { return None; }
      var ok := EditThreads(H.ArmWp(free, w));
      if !ok { return None; }
      watches[free] := Some(w);
      assert watches[..] == old(watches[..])[free := Some(w)];
      slot := Some(free);
    }

    method RemoveWatchpoint(i: nat) returns (ok: bool)
      requires Valid()
      modifies kernel`files, watches
      ensures Valid() && (Abs(), ok) == H.RemoveWatch(old(Abs()), i)
    {
      if i >= H.WP_SLOTS { return false; }
      ok := EditThreads(H.DisarmWp(i));
      if ok {
        watches[i] := None;
        assert watches[..] == old(watches[..])[i := None];
      }
    }

    /** Programs the occupied breakpoint slots into a new thread. */
    method ApplyBreakpoints(t: Tid)
      requires Valid() && kernel.alive && t in kernel.files
      modifies kernel`files
      ensures Valid()
      ensures kernel.files == old(kernel.files)[t := H.ArmBps(old(kernel.files)[t], slots[..], H.BP_SLOTS)]
    {
      hide H.Edited;
      ghost var f := kernel.files[t];
      for i := 0 to H.BP_SLOTS
        invariant Valid() && kernel.files == old(kernel.files)[t := H.ArmBps(f, slots[..], i)]
      {
        if slots[i].Some? {
          var ok := kernel.EditSlot(t, H.ArmBp(i, slots[i].value));
        }
      }
    }

    /** And the occupied watchpoint slots. */
    method ApplyExisting(t: Tid)
      requires Valid() && kernel.alive && t in kernel.files
      modifies kernel`files
      ensures Valid()
      ensures kernel.files == old(kernel.files)[t := H.ApplyExisting(old(kernel.files)[t], slots[..], watches[..])]
    {
      hide H.Edited, H.ArmBps;
      ApplyBreakpoints(t);
      ghost var f := kernel.files[t];
      for i := 0 to H.WP_SLOTS
        invariant Valid() && kernel.files == old(kernel.files)[t := H.ArmWps(f, watches[..], i)]
      {
        if watches[i].Some? {
          var ok := kernel.EditSlot(t, H.ArmWp(i, watches[i].value));
        }
      }
    }

    /** The entry of one listed thread; a thread that was not known gets the slots. */
    method Introduce(t: Tid, ghost h: H.Hw, ghost done: seq<Tid>) returns (entry: H.Thread)
      requires Valid() && kernel.alive && t in h.files && t !in done
      requires H.Shaped(h) && Abs() == h.(files := IntroducedSoFar(h, done))
      modifies kernel`files
      ensures Valid() && Abs() == h.(files := IntroducedSoFar(h, done + [t]))
      ensures entry == H.Thread(t, H.SuspendedFlag(threads, t))
    {
      IntroducedNext(h, done, t);
      hide H.ApplyExisting, H.SuspendedFlag, IntroducedSoFar;
      var known, suspended := Recall(t);
      if !known {
        ApplyExisting(t);
      }
      entry := H.Thread(t, suspended);
    }

    /** The new thread list. */
    method Relist(listing: seq<Tid>) returns (entries: seq<H.Thread>)
      requires Valid() && kernel.alive && (forall t :: t in listing ==> t in kernel.files)
      requires forall i, j :: 0 <= i < j < |listing| ==> listing[i] != listing[j]
      modifies kernel`files
      ensures Valid() && entries == H.Relisted(threads, listing)
      ensures Abs() == old(Abs()).(files := H.Introduced(old(Abs()), listing))
    {
      ghost var h := Abs();
      entries := [];
      NothingYet(h, listing);
      hide H.Relisted, H.Introduced, IntroducedSoFar;
      for i := 0 to |listing|
        invariant Valid() && Abs() == h.(files := IntroducedSoFar(h, listing[..i]))
        invariant entries == H.Relisted(h.threads, listing[..i])
      {
        RelistedNext(h.threads, listing, i);
        var entry := Introduce(listing[i], h, listing[..i]);
        entries := entries + [entry];
      }
      assert listing[..|listing|] == listing;
    }

    /** Takes over a fresh listing; the selected thread stays selected, by its id. */
    method RefreshThreads(listing: seq<Tid>)
      requires Valid() && kernel.alive && (forall t :: t in listing ==> t in kernel.files)
      requires forall i, j :: 0 <= i < j < |listing| ==> listing[i] != listing[j]
      modifies this`threads, this`current, kernel`files
      ensures Valid() && Abs() == H.Refresh(old(Abs()), listing)
    {
      hide H.Introduced, H.Relisted;
      var old_tid := if current < |threads| then Some(threads[current].tid) else None;
      var entries := Relist(listing);
      current := 0;
      if old_tid.Some? {
        var i := 0;
        while i < |listing| && listing[i] != old_tid.value
          invariant 0 <= i <= |listing| && old_tid.value !in listing[..i]
        {
          i := i + 1;
        }
        assert i == E.IndexOf(listing, old_tid.value);
        current := if i < |listing| then i else 0;
      }
      threads := entries;
    }

    /** Was the thread known, and was it suspended? */
    method Recall(t: Tid) returns (known: bool, suspended: bool)
      requires Valid()
      ensures known == (t in H.Tids(threads)) && suspended == H.SuspendedFlag(threads, t)
    {
      ghost var tids := H.Tids(threads);
      for i := 0 to |threads|
        invariant forall j :: 0 <= j < i ==> tids[j] != t
      {
        if threads[i].tid == t {
          assert tids[i] == t && E.IndexOf(tids, t) == i;
          return true, threads[i].suspended;
        }
      }
      known, suspended := false, false;
    }

    method ContinueAndWait(env: H.HwEnv)
      requires Valid() && kernel.alive
      requires forall i, j :: 0 <= i < j < |env.listing| ==> env.listing[i] != env.listing[j]
      modifies this`threads, this`current, this`last, kernel
      ensures Valid() && Abs() == H.Resume(old(Abs()), env)
      ensures old(Distinct(threads)) ==> Distinct(threads)
    {
      hide H.Introduced, H.Relisted;
      kernel.Resume(env);
      match env.event {
        case StopEvent(signal) =>
          RefreshThreads(env.listing);
          var pc := Pc();
          last := Some(E.Stopped(signal, pc.GetOr(0)));
        case ExitEvent(code) => last := Some(E.Exited(code));
        case KillEvent(signal) => last := Some(E.Signaled(signal));
      }
      if old(Distinct(threads)) {
        StillDistinct(old(Abs()), env);
      }
    }

    method Pc() returns (pc: Option<Word>)
      requires Valid()
      ensures pc == H.CurrentPc(Abs())
    {
      if kernel.alive && current < |threads| && threads[current].tid in kernel.pcs {
        pc := Some(kernel.pcs[threads[current].tid]);
      } else {
        pc := None;
      }
    }

    /** The first thread standing on a breakpoint becomes the selected one. */
    method HandleBreakpointHit()
      requires Valid()
      modifies this`at, this`current, this`last
      ensures Valid() && Abs() == H.Handle(old(Abs()))
    {
      if last.None? || !last.value.Stopped? || last.value.signal != E.SIGTRAP || !kernel.alive { return; }
      ghost var h := Abs();
      var hit: Option<nat> := None;
      for i := 0 to |threads|
        invariant hit.None? ==> H.FirstStanding(h, threads) == i + H.FirstStanding(h, threads[i..])
        invariant hit.Some? ==> H.FirstStanding(h, threads) == hit.value < |threads|
        invariant Abs() == h
      {
        assert threads[i..][1..] == threads[i + 1..];
        var t := threads[i].tid;
        if t in kernel.pcs && kernel.pcs[t] in bps && hit.None? {
          hit := Some(i);
        }
      }
      if hit.Some? {
        var a := kernel.pcs[threads[hit.value].tid];
        at, current, last := Some(a), hit.value, Some(E.Stopped(E.SIGTRAP, a));
      }
    }

    method StepCurrentThread(env: H.HwEnv) returns (out: E.Outcome)
      requires Valid()
      requires forall i, j :: 0 <= i < j < |env.listing| ==> env.listing[i] != env.listing[j]
      modifies this, kernel, slots
      ensures Valid() && (Abs(), out) == H.StepCurrent(old(Abs()), env)
      ensures old(Distinct(threads)) ==> Distinct(threads)
    {
      hide H.SetBp, H.RemoveBp, H.Resume, H.Handle;
      var pc := Pc();
      if pc.None? { return E.Failed; }
      var a := Plus(pc.value, 4);
      var planted := false;
      if a !in bps {
        planted := SetBreakpoint(a);
      }
      assert kernel.alive;
      ContinueAndWait(env);
      HandleBreakpointHit();
      if planted {
        var removed := RemoveBreakpoint(a);
      }
      out := E.Done(last.value);
    }

    method StepOverBreakpoint(a: Word, env: H.HwEnv) returns (out: E.Outcome)
      requires Valid()
      requires forall i, j :: 0 <= i < j < |env.listing| ==> env.listing[i] != env.listing[j]
      modifies this, kernel, slots
      ensures Valid() && (Abs(), out) == H.StepOver(old(Abs()), a, env)
      ensures old(Distinct(threads)) ==> Distinct(threads)
    {
      hide H.StepCurrent, H.EditThreads;
      var slot := FindSlot(a);
      if slot.None? { return E.Failed; }
      var ok := EditThreads(H.DisarmBp(slot.value));
      if !ok { return E.Failed; }
      out := StepCurrentThread(env);
      if !out.Done? { return; }
      ok := EditThreads(H.ArmBp(slot.value, a));
      if !ok { out := E.Failed; }
    }

    method StepInstruction(env: H.HwEnv) returns (out: E.Outcome)
      requires Valid()
      requires forall i, j :: 0 <= i < j < |env.listing| ==> env.listing[i] != env.listing[j]
      modifies this, kernel, slots
      ensures Valid() && (Abs(), out) == H.StepI(old(Abs()), env)
    {
      hide H.StepCurrent, H.StepOver;
      if at.Some? {
        var a := at.value;
        at := None;
        out := StepOverBreakpoint(a, env);
      } else {
        out := StepCurrentThread(env);
      }
      if !out.Done? { return; }
      var pc := Pc();
      if pc.Some? && pc.value in bps {
        at := pc;
      }
      out := if last.Some? then E.Done(last.value) else E.Panicked;
    }

    /** PT_CONTINUE fails once the target is gone. */
    method ContinueToStop(env: H.HwEnv) returns (out: E.Outcome)
      requires Valid()
      requires forall i, j :: 0 <= i < j < |env.listing| ==> env.listing[i] != env.listing[j]
      modifies this, kernel
      ensures Valid() && (Abs(), out) == H.ContMain(old(Abs()), env)
    {
      hide H.Resume, H.Handle;
      if !kernel.alive { return E.Failed; }
      ContinueAndWait(env);
      HandleBreakpointHit();
      out := E.Done(last.value);
    }

    method Continue(e1: H.HwEnv, e2: H.HwEnv) returns (out: E.Outcome)
      requires Valid()
      requires forall i, j :: 0 <= i < j < |e1.listing| ==> e1.listing[i] != e1.listing[j]
      requires forall i, j :: 0 <= i < j < |e2.listing| ==> e2.listing[i] != e2.listing[j]
      modifies this, kernel, slots
      ensures Valid() && (Abs(), out) == H.Cont(old(Abs()), e1, e2)
    {
      hide H.StepOver, H.ContMain;
      if at.Some? {
        var a := at.value;
        at := None;
        out := StepOverBreakpoint(a, e1);
        if !out.Done? { return; }
        if last.None? || !last.value.Stopped? {
          return if last.Some? then E.Done(last.value) else E.Panicked;
        }
      }
      out := ContinueToStop(e2);
    }

    method DropSlot(i: nat)
      requires Valid() && i < H.BP_SLOTS && Distinct(threads)
      modifies kernel`files, slots
      ensures Valid() && Abs() == H.DropSlot(old(Abs()), i)
    {
      hide H.ClearQuietly;
      ClearQuietly(i);
      ReleaseSlot(i);
    }

    /** Run on with the slot armed, then drop it and look for breakpoints. */
    method FinishToStop(slot: nat, env: H.HwEnv) returns (out: E.Outcome)
      requires Valid() && slot < H.BP_SLOTS && Distinct(threads)
      requires forall i, j :: 0 <= i < j < |env.listing| ==> env.listing[i] != env.listing[j]
      modifies this, kernel, slots
      ensures Valid() && (Abs(), out) == H.FinishMain(old(Abs()), slot, env)
    {
      hide H.Resume, H.Handle, H.DropSlot;
      if !kernel.alive { return E.Failed; }
      ContinueAndWait(env);
      DropSlot(slot);
      HandleBreakpointHit();
      out := E.Done(last.value);
    }

    method FinishWithHwBp(ret: Word, e1: H.HwEnv, e2: H.HwEnv) returns (out: E.Outcome)
      requires Valid() && Distinct(threads)
      requires forall i, j :: 0 <= i < j < |e1.listing| ==> e1.listing[i] != e1.listing[j]
      requires forall i, j :: 0 <= i < j < |e2.listing| ==> e2.listing[i] != e2.listing[j]
      modifies this, kernel, slots
      ensures Valid() && (Abs(), out) == H.Finish(old(Abs()), ret, e1, e2)
    {
      hide H.StepOver, H.FinishMain, H.EditThreads;
      var slot := AllocSlot(ret);
      if slot.None? { return E.Failed; }
      var ok := EditThreads(H.ArmBp(slot.value, ret));
      if !ok { return E.Failed; }
      if at.Some? {
        var a := at.value;
        at := None;
        out := StepOverBreakpoint(a, e1);
        if !out.Done? { return; }
        if last.None? || !last.value.Stopped? {
          DropSlot(slot.value);
          return if last.Some? then E.Done(last.value) else E.Panicked;
        }
      }
      out := FinishToStop(slot.value, e2);
    }

    method SelectThread(i: nat) returns (ok: bool)
      requires Valid()
      modifies this`current
      ensures Valid() && (Abs(), ok) == H.Select(old(Abs()), i)
    {
      ok := i < |threads|;
      if ok { current := i; }
    }

    /** `suspend_thread` and `resume_thread`; the suspension itself is the kernel's. */
    method SetSuspended(i: nat, suspended: bool) returns (ok: bool)
      requires Valid()
      modifies this`threads
      ensures Valid() && (Abs(), ok) == H.SetSuspended(old(Abs()), i, suspended)
    {
      ok := i < |threads| && kernel.alive && threads[i].tid in kernel.files;
      if ok {
        threads := threads[i := threads[i].(suspended := suspended)];
      }
    }
  }

  predicate Distinct(threads: seq<H.Thread>) {
    forall i, j :: 0 <= i < j < |threads| ==> threads[i].tid != threads[j].tid
  }

  lemma TidsNext(threads: seq<H.Thread>, k: nat)
    requires k < |threads| && Distinct(threads)
    ensures H.Tids(threads[..k + 1]) == H.Tids(threads[..k]) + [threads[k].tid]
    ensures threads[k].tid !in H.Tids(threads[..k])
  {
  }

  function ClearedSoFar(h: H.Hw, i: nat, done: seq<Tid>): map<Tid, H.File>
    requires H.Shaped(h) && i < H.BP_SLOTS
  {
    map t | t in h.files :: if h.alive && t in done then H.Edited(h.files[t], H.DisarmBp(i)) else h.files[t]
  }

  lemma ClearedNext(h: H.Hw, i: nat, done: seq<Tid>, t: Tid)
    requires H.Shaped(h) && i < H.BP_SLOTS && t !in done
    ensures var before := ClearedSoFar(h, i, done);
      && (forall x :: x in before ==> before[x].Shaped()) && before.Keys == h.files.Keys
      && ClearedSoFar(h, i, done + [t])
         == if h.alive && t in before then before[t := H.Edited(before[t], H.DisarmBp(i))] else before
  {
    hide H.Edited;
  }

  lemma ClearedEnds(h: H.Hw, i: nat)
    requires H.Shaped(h) && i < H.BP_SLOTS
    ensures ClearedSoFar(h, i, []) == h.files
    ensures ClearedSoFar(h, i, H.Tids(h.threads)) == H.ClearQuietly(h, i)
  {
    hide H.Edited;
  }

  function IntroducedSoFar(h: H.Hw, done: seq<Tid>): map<Tid, H.File>
    requires H.Shaped(h)
  {
    map t | t in h.files ::
      if t in done && t !in H.Tids(h.threads) then H.ApplyExisting(h.files[t], h.slots, h.watches) else h.files[t]
  }

  lemma IntroducedNext(h: H.Hw, done: seq<Tid>, t: Tid)
    requires H.Shaped(h) && t in h.files && t !in done
    ensures IntroducedSoFar(h, done + [t]) == IntroducedSoFar(h, done)[t :=
      if t in H.Tids(h.threads) then h.files[t] else H.ApplyExisting(h.files[t], h.slots, h.watches)]
    ensures t in IntroducedSoFar(h, done) && IntroducedSoFar(h, done)[t] == h.files[t]
    ensures IntroducedSoFar(h, done).Keys == h.files.Keys
  {
    hide H.ApplyExisting;
  }

  lemma StillDistinct(h: H.Hw, env: H.HwEnv)
    requires H.Shaped(h) && Distinct(h.threads)
    requires forall i, j :: 0 <= i < j < |env.listing| ==> env.listing[i] != env.listing[j]
    ensures Distinct(H.Resume(h, env).threads)
  {
    if env.event.StopEvent? {
      var ts := H.Resume(h, env).threads;
      assert H.Tids(ts) == env.listing;
      forall i, j | 0 <= i < j < |ts|
        ensures ts[i].tid != ts[j].tid
      {
        assert H.Tids(ts)[i] == env.listing[i] && H.Tids(ts)[j] == env.listing[j];
      }
    }
  }

  lemma NothingYet(h: H.Hw, listing: seq<Tid>)
    requires H.Shaped(h)
    ensures h.files == IntroducedSoFar(h, listing[..0]) && H.Introduced(h, listing) == IntroducedSoFar(h, listing)
    ensures H.Relisted(h.threads, listing[..0]) == []
  {
  }

  lemma RelistedNext(threads: seq<H.Thread>, listing: seq<Tid>, i: nat)
    requires i < |listing| && forall i, j :: 0 <= i < j < |listing| ==> listing[i] != listing[j]
    ensures listing[..i + 1] == listing[..i] + [listing[i]] && listing[i] !in listing[..i]
    ensures H.Relisted(threads, listing[..i + 1])
         == H.Relisted(threads, listing[..i]) + [H.Thread(listing[i], H.SuspendedFlag(threads, listing[i]))]
  {
    hide H.SuspendedFlag;
  }
}
