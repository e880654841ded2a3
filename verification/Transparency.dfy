/** What the user of the debugger may believe: the target shown at a stop (registers
    and un-patched memory) is the target that would be there without a debugger. */
module Transparency {
  import opened Words
  import opened Machine
  import opened Overlay
  import opened Engine

  /** The target as the debugger shows it. */
  function View(d: Dbg): State {
    State(d.target.mem + Saved(d.bps), d.target.threads, {})
  }

  /** Every entry of the table is armed, holds one byte, and its patch is in memory. */
  ghost predicate TableOk(d: Dbg) {
    forall a :: a in d.bps ==>
      d.bps[a].enabled && |d.bps[a].saved| == 1 && a in d.target.mem && d.target.mem[a] == INT3
  }

  ghost predicate ListsExactly(threads: seq<Tid>, live: map<Tid, Regs>) {
    && (forall t :: t in threads <==> t in live)
    && (forall i, j :: 0 <= i < j < |threads| ==> threads[i] != threads[j])
  }

  /** The selected thread stands where `at` says it stopped. */
  ghost predicate AtIsCurrent(d: Dbg) {
    d.at.Some? ==> d.at.value in d.bps && CurrentRegs(d).Some? && CurrentPc(d) == d.at.value
  }

  /** The invariant of a live session. */
  ghost predicate Consistent(d: Dbg) {
    && d.alive
    && TableOk(d)
    && WellFormed(d.target)
    && ListsExactly(d.threads, d.target.threads)
    && AtIsCurrent(d)
  }

  lemma SavedIsTable(d: Dbg)
    requires TableOk(d)
    ensures Saved(d.bps).Keys == d.bps.Keys
    ensures Armed(d.target.mem, Saved(d.bps))
    ensures forall a :: a in d.bps ==> d.bps[a] == Bp(true, [Saved(d.bps)[a]])
  {
    forall a | a in d.bps
      ensures d.bps[a] == Bp(true, [Saved(d.bps)[a]])
    {
      assert d.bps[a].saved == [d.bps[a].saved[0]];
    }
  }

  // ---------- setting and removing breakpoints is invisible

  lemma SavedSet(bps: map<Word, Bp>, a: Word, b: Byte)
    ensures Saved(bps[a := Bp(true, [b])]) == Saved(bps)[a := b]
  {}

  lemma SavedRemove(bps: map<Word, Bp>, a: Word)
    ensures Saved(bps - {a}) == Saved(bps) - {a}
  {}

  lemma ArmHides(mem: Memory, saved: Memory, a: Word)
    requires a in mem && a !in saved
    ensures mem[a := INT3] + saved[a := mem[a]] == mem + saved
  {}

  lemma DisarmHides(mem: Memory, saved: Memory, a: Word)
    requires a in mem && a in saved
    ensures mem[a := saved[a]] + (saved - {a}) == mem + saved
  {}

  /** Arming an address that is not armed yet changes nothing the user can see. */
  lemma SetBpInvisible(d: Dbg, a: Word)
    requires TableOk(d) && a !in d.bps
    ensures TableOk(SetBp(d, a).0)
    ensures View(SetBp(d, a).0) == View(d)
    ensures SetBp(d, a).1 <==> Reachable(d, a)
    ensures SetBp(d, a).0.bps.Keys == if Reachable(d, a) then d.bps.Keys + {a} else d.bps.Keys
  {
    var d1 := SetBp(d, a).0;
    if Reachable(d, a) {
      SavedIsTable(d);
      SavedSet(d.bps, a, d.target.mem[a]);
      ArmHides(d.target.mem, Saved(d.bps), a);
    }
  }

  /** `set_breakpoint` does not check for an existing breakpoint: arming twice keeps the
      view exactly when the byte under the breakpoint is itself `int3`. */
  lemma SetTwiceExactIff(d: Dbg, a: Word)
    requires TableOk(d) && a in d.bps && d.alive
    ensures View(SetBp(d, a).0) == View(d) <==> View(d).mem[a] == INT3
  {
    SavedIsTable(d);
    var saved := Saved(d.bps);
    SavedSet(d.bps, a, INT3);
    assert View(SetBp(d, a).0).mem == (d.target.mem + saved)[a := INT3];
  }

  lemma RemoveBpInvisible(d: Dbg, a: Word)
    requires TableOk(d) && d.alive
    ensures RemoveBp(d, a).1
    ensures TableOk(RemoveBp(d, a).0)
    ensures View(RemoveBp(d, a).0) == View(d)
    ensures RemoveBp(d, a).0.bps == d.bps - {a}
    ensures a in d.bps ==>
      RemoveBp(d, a).0.target == d.target.(mem := d.target.mem[a := View(d).mem[a]])
  {
    SavedIsTable(d);
    var d1 := RemoveBp(d, a).0;
    if a in d.bps {
      SavedRemove(d.bps, a);
      DisarmHides(d.target.mem, Saved(d.bps), a);
    } else {
      assert d.bps - {a} == d.bps;
    }
  }

  lemma SetRemoveSame(d: Dbg, a: Word)
    requires a !in d.bps && d.at != Some(a)
    ensures RemoveBp(SetBp(d, a).0, a).0 == d
  {
    var mem := d.target.mem;
    assert d.bps - {a} == d.bps;
    if Reachable(d, a) {
      assert mem[a := INT3][a := mem[a]] == mem;
      assert d.bps[a := Bp(true, [mem[a]])] - {a} == d.bps;
    }
  }

  /** Set, then remove: the session is back where it was, raw memory included. */
  lemma SetRemoveRoundTrip(d: Dbg, a: Word)
    requires Consistent(d) && a !in d.bps
    ensures RemoveBp(SetBp(d, a).0, a).0 == d
  {
    hide SetBp, RemoveBp;
    SetRemoveSame(d, a);
  }

  /** Memory reads never show a patch. */
  lemma ReadShowsView(d: Dbg, a: Word, n: nat)
    requires Consistent(d)
    ensures ReadMem(d, a, n) ==
      if n == 0 then Some([]) else if RangeMapped(View(d).mem, a, n) then Some(Slice(View(d).mem, a, n)) else None
  {
    SavedIsTable(d);
    assert View(d).mem.Keys == d.target.mem.Keys;
  }

  lemma WriteHides(mem: Memory, saved: Memory, a: Word, data: seq<Byte>)
    requires Armed(mem, saved) && RangeMapped(mem, a, |data|)
    ensures (Armed(Overwrite(mem, a, data), saved)
              && Overwrite(mem, a, data) + saved == Overwrite(mem + saved, a, data))
       <==> forall x :: x in saved && a <= x < a + |data| ==> data[x - a] == INT3 == saved[x]
  {
    var got, want := Overwrite(mem, a, data) + saved, Overwrite(mem + saved, a, data);
    assert got.Keys == want.Keys;
    if x :| x in saved && a <= x < a + |data| && !(data[x - a] == INT3 == saved[x]) {
      assert Overwrite(mem, a, data)[x] == data[x - a] == want[x];
      assert got[x] == saved[x];
    } else {
      forall x | x in got
        ensures got[x] == want[x]
      {
      }
    }
  }

  /** `write_memory` goes straight through: it is the write the user meant, and leaves
      the table in order, exactly when it changes no patched byte (the one harmless
      overlap being `int3` over an original `int3`). */
  lemma WriteExactIff(d: Dbg, a: Word, data: seq<Byte>)
    requires Consistent(d) && RangeMapped(d.target.mem, a, |data|)
    ensures WriteMem(d, a, data).1
    ensures (TableOk(WriteMem(d, a, data).0)
              && View(WriteMem(d, a, data).0) == View(d).(mem := Overwrite(View(d).mem, a, data)))
       <==> forall x :: x in d.bps && a <= x < a + |data| ==> data[x - a] == INT3 == View(d).mem[x]
  {
    SavedIsTable(d);
    WriteHides(d.target.mem, Saved(d.bps), a, data);
    var d1 := WriteMem(d, a, data).0;
    assert TableOk(d1) <==> Armed(d1.target.mem, Saved(d.bps));
  }

  /** A write fails exactly when the target is gone or an address lies outside its memory,
      and then changes nothing. */
  lemma WriteFailsIff(d: Dbg, a: Word, data: seq<Byte>)
    ensures WriteMem(d, a, data).1
       <==> d.alive && a + |data| <= WORD && forall x: Word :: a <= x < a + |data| ==> x in d.target.mem
    ensures !WriteMem(d, a, data).1 ==> WriteMem(d, a, data).0 == d
  {
  }
}
