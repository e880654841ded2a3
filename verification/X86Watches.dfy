/** Watchpoints on x86_64: four slots kept in DR0-DR3 and DR7 of every thread. */
module X86Watches {
  import opened Words
  import Machine
  import Bits
  import opened DebugRegs

  const WP_SLOTS: nat := 4

  /** The slot table as the registers should read. */
  function Wanted(w: Option<Watch>): Entry {
    match w
    case Some(v) => Entry(v.addr, On(v.cond, v.len))
    case None => Entry(0, Off)
  }

  /** One thread's registers read as the slot table. */
  ghost predicate Reads(r: X86Regs, watches: seq<Option<Watch>>)
    requires |watches| == WP_SLOTS
  {
    |r.dr| == 4 && forall s: Slot :: Entry(r.dr[s], Decode(r.dr7, s)) == Wanted(watches[s])
  }

  /** What setting or clearing one slot does to what a thread's registers read. */
  lemma ApplyReadsAs(r: X86Regs, watches: seq<Option<Watch>>, op: WatchOp)
    requires |watches| == WP_SLOTS && Reads(r, watches)
    ensures Reads(Apply(r, op),
                  watches[op.slot := if op.SetWatch? then Some(Watch(op.addr, op.cond, op.len)) else None])
  {
    hide Decode, Dr7SetSlot, Dr7ClearSlot;
    var cond, len := if op.SetWatch? then op.cond else Write, if op.SetWatch? then op.len else Byte1;
    forall s: Slot
      ensures Decode(Apply(r, op).dr7, s)
           == if s != op.slot then Decode(r.dr7, s) else if op.SetWatch? then On(op.cond, op.len) else Off
    {
      DecodeAfter(r.dr7, op.slot, s, cond, len);
    }
  }

  /** A new thread's registers: nothing enabled. */
  const CLEAR: X86Regs := X86Regs([0, 0, 0, 0], 0)

  lemma ClearReads()
    ensures Reads(CLEAR, [None, None, None, None])
  {
    forall s: Slot
      ensures Decode(0, s) == Off
    {
      Bits.BitOfZero(2 * s);
    }
  }

  /** The threads known before and those in `done` are programmed; the others are new. */
  ghost predicate UpTo(regs: map<Machine.Tid, X86Regs>, known: seq<Machine.Tid>, done: seq<Machine.Tid>,
                       watches: seq<Option<Watch>>)
    requires |watches| == WP_SLOTS
  {
    forall t :: t in regs ==> if t in known || t in done then Reads(regs[t], watches) else regs[t] == CLEAR
  }

  lemma OneMore(regs: map<Machine.Tid, X86Regs>, known: seq<Machine.Tid>, done: seq<Machine.Tid>, t: Machine.Tid,
                r: X86Regs, watches: seq<Option<Watch>>)
    requires |watches| == WP_SLOTS && t in regs && UpTo(regs, known, done, watches)
    requires t !in known ==> Reads(r, watches)
    ensures UpTo(if t in known then regs else regs[t := r], known, done + [t], watches)
  {
    hide Reads;
  }

  class Debugger {
    var regs: map<Machine.Tid, X86Regs> // the kernel's side: the threads alive and their registers
    var threads: seq<Machine.Tid>
    const watches: array<Option<Watch>>

    constructor ()
      ensures Valid() && threads == [] && fresh(watches) && forall s :: 0 <= s < WP_SLOTS ==> watches[s] == None
    {
      regs, threads := map[], [];
      watches := new Option<Watch>[WP_SLOTS](_ => None);
    }

    /** The debugger knows the live threads, and every thread's registers agree with the
        slot table. */
    ghost predicate Valid()
      reads this, watches
    {
      && watches.Length == WP_SLOTS
      && (forall t :: t in threads <==> t in regs)
      && (forall i, j :: 0 <= i < j < |threads| ==> threads[i] != threads[j])
      && (forall t :: t in regs ==> Reads(regs[t], watches[..]))
    }

    /** One slot in every thread: `for t in &self.threads { mach::.._slot(..)?; }` */
    method ApplyToAll(op: WatchOp)
      requires Valid()
      modifies this`regs
      ensures regs.Keys == old(regs).Keys
      ensures forall t :: t in regs ==> |old(regs)[t].dr| == 4 && regs[t] == Apply(old(regs)[t], op)
    {
      hide Apply, Reads;
      assert forall t :: t in regs ==> |regs[t].dr| == 4 by { ShapesOf(); }
      for i := 0 to |threads|
        invariant regs.Keys == old(regs).Keys
        invariant forall t :: t in regs ==> |old(regs)[t].dr| == 4
        invariant forall t :: t in regs ==>
          regs[t] == if t in threads[..i] then Apply(old(regs)[t], op) else old(regs)[t]
      {
        var t := threads[i];
        assert t in threads && t in regs && t !in threads[..i];
        assert threads[..i + 1] == threads[..i] + [t];
        regs := regs[t := Apply(regs[t], op)];
      }
      assert threads[..|threads|] == threads;
    }

    lemma ShapesOf()
      requires Valid()
      ensures forall t :: t in regs ==> |regs[t].dr| == 4
    {
    }

    /** A watched address keeps its slot; a new one takes the first free slot; only a full
        table refuses. */
    method SetWatchpoint(w: Watch) returns (slot: Option<nat>)
      requires Valid()
      modifies this`regs, watches
      ensures Valid()
      ensures slot.Some? ==>
        slot.value < WP_SLOTS && watches[slot.value].Some? && watches[slot.value].value.addr == w.addr
      ensures var known :=
        exists s :: 0 <= s < WP_SLOTS && old(watches[s]).Some? && old(watches[s]).value.addr == w.addr;
        && (known ==> slot.Some? && watches[..] == old(watches[..]))
        && (!known && slot.Some? ==>
              && old(watches[slot.value]) == None && (forall s :: 0 <= s < slot.value ==> old(watches[s]).Some?)
              && watches[..] == old(watches[..])[slot.value := Some(w)])
        && (slot.None? <==> !known && forall s :: 0 <= s < WP_SLOTS ==> old(watches[s]).Some?)
        && (slot.None? ==> watches[..] == old(watches[..]) && regs == old(regs))
    {
      hide Reads;
      for i := 0 to WP_SLOTS
        invariant forall s :: 0 <= s < i ==> !(watches[s].Some? && watches[s].value.addr == w.addr)
      {
        if watches[i].Some? && watches[i].value.addr == w.addr {
          return Some(i);
        }
      }
      var free := 0;
      while free < WP_SLOTS && watches[free].Some?
        invariant 0 <= free <= WP_SLOTS && forall s :: 0 <= s < free ==> watches[s].Some?
      {
        free := free + 1;
      }
      if free == WP_SLOTS { return None; }
      Place(SetWatch(free, w.addr, w.cond, w.len));
      slot := Some(free);
    }

    method RemoveWatchpoint(slot: nat) returns (ok: bool)
      requires Valid()
      modifies this`regs, watches
      ensures Valid() && (ok <==> slot < WP_SLOTS)
      ensures watches[..] == if ok then old(watches[..])[slot := None] else old(watches[..])
    {
      if slot >= WP_SLOTS { return false; }
      Place(ClearWatch(slot));
      ok := true;
    }

    /** Registers of all threads first, then the table. */
    method Place(op: WatchOp)
      requires Valid()
      modifies this`regs, watches
      ensures Valid() && regs.Keys == old(regs.Keys)
      ensures watches[..]
           == old(watches[..])[op.slot := if op.SetWatch? then Some(Watch(op.addr, op.cond, op.len)) else None]
    {
      hide Reads, Apply;
      ghost var before := watches[..];
      ApplyToAll(op);
      forall t | t in regs
        ensures Reads(regs[t], before[op.slot := if op.SetWatch? then Some(Watch(op.addr, op.cond, op.len)) else None])
      {
        ApplyReadsAs(old(regs)[t], before, op);
      }
      watches[op.slot] := if op.SetWatch? then Some(Watch(op.addr, op.cond, op.len)) else None;
      assert watches[..] == before[op.slot := watches[op.slot]];
    }

    /** The stop finds the threads of `listing`: known ones as they were, new ones clear. */
    method Refresh(listing: seq<Machine.Tid>)
      requires Valid() && forall i, j :: 0 <= i < j < |listing| ==> listing[i] != listing[j]
      modifies this`regs, this`threads
      ensures Valid() && threads == listing && watches[..] == old(watches[..])
    {
      hide Reads;
      ghost var known := threads;
      regs := map t | t in listing :: if t in regs then regs[t] else CLEAR;
      for i := 0 to |listing|
        invariant threads == known && forall t :: t in regs <==> t in listing
        invariant UpTo(regs, known, listing[..i], watches[..])
      {
        var t := listing[i];
        assert listing[..i + 1] == listing[..i] + [t];
        var r := CLEAR;
        if t !in threads {
          r := ApplyExisting(CLEAR);
        }
        OneMore(regs, known, listing[..i], t, r, watches[..]);
        if t !in threads {
          regs := regs[t := r];
        }
      }
      assert listing[..|listing|] == listing;
      threads := listing;
    }

    /** Programs the occupied slots into a new thread's clear registers. */
    method ApplyExisting(clear: X86Regs) returns (r: X86Regs)
      requires clear == CLEAR && watches.Length == WP_SLOTS
      ensures Reads(r, watches[..])
    {
      hide Reads, Apply;
      r := clear;
      ClearReads();
      ghost var done: seq<Option<Watch>> := [None, None, None, None];
      for i := 0 to WP_SLOTS
        invariant |done| == WP_SLOTS && Reads(r, done)
        invariant forall s :: 0 <= s < WP_SLOTS ==> done[s] == if s < i then watches[s] else None
      {
        if watches[i].Some? {
          var w := watches[i].value;
          ghost var op := SetWatch(i, w.addr, w.cond, w.len);
          ApplyReadsAs(r, done, op);
          assert |r.dr| == 4 by { ShapeOf(r, done); }
          r := Apply(r, SetWatch(i, w.addr, w.cond, w.len));
          done := done[i := Some(w)];
        }
      }
      assert done == watches[..];
    }
  }

  lemma ShapeOf(r: X86Regs, watches: seq<Option<Watch>>)
    requires |watches| == WP_SLOTS && Reads(r, watches)
    ensures |r.dr| == 4
  {
  }
}
