/** The simulation at the heart of the debugger: a target whose memory carries `int3`
    patches, run by any schedule, is at every point the unpatched target run by the
    same schedule with the trapping turns left out. */
module Overlay {
  import opened Words
  import opened Machine

  /** Memory carries `int3` at every address of the table `saved` of original bytes. */
  predicate Armed(mem: Memory, saved: Memory) {
    forall a :: a in saved ==> a in mem && mem[a] == INT3
  }

  function TrueRegs(r: Regs, trapped: bool, saved: Memory): Regs {
    if trapped && Dec(r.pc) in saved then r.(pc := Dec(r.pc)) else r
  }

  function TrueThreads(s: State, saved: Memory): map<Tid, Regs> {
    map t | t in s.threads :: TrueRegs(s.threads[t], t in s.trapped, saved)
  }

  function TrueTrapped(s: State, saved: Memory): set<Tid> {
    set t | t in s.trapped && !(t in s.threads && Dec(s.threads[t].pc) in saved)
  }

  /** The unpatched target a patched one stands for: original bytes back in place,
      threads that ran into a patch still standing in front of it. */
  function TrueState(s: State, saved: Memory): State {
    State(s.mem + saved, TrueThreads(s, saved), TrueTrapped(s, saved))
  }

  /** Does this turn execute an instruction of the program, rather than run into a
      patch or find the thread waiting? */
  predicate Moves(s: State, saved: Memory, t: Tid) {
    t in s.threads && t !in s.trapped && s.threads[t].pc !in saved
  }

  /** The turns of `sched` that execute an instruction of the program. */
  function Effective(isa: Isa, s: State, saved: Memory, sched: seq<Tid>): seq<Tid>
    decreases |sched|
  {
    if sched == [] then []
    else (if Moves(s, saved, sched[0]) then [sched[0]] else [])
         + Effective(isa, Step(isa, s, sched[0]), saved, sched[1..])
  }

  predicate WellFormed(s: State) {
    s.trapped <= s.threads.Keys
  }

  lemma DecInc(a: Word)
    ensures Dec(Inc(a)) == a && Inc(Dec(a)) == a
  {}

  /** Two memories that differ only at `saved` hold the same instruction at `pc` when
      that instruction's bytes avoid `saved`. */
  lemma CodeAgrees(isa: Isa, mem: Memory, saved: Memory, pc: Word)
    requires Decodable(isa)
    requires forall i :: 0 <= i < |Code(isa, mem + saved, pc)| ==> Plus(pc, i) !in saved
    ensures Code(isa, mem, pc) == Code(isa, mem + saved, pc)
  {
    var w, w' := Window(mem + saved, pc), Window(mem, pc);
    var n := InsnLen(isa, w);
    forall i | 0 <= i < n
      ensures w[i] == w'[i]
    {
      assert Plus(pc, i) !in saved;
    }
    assert w[..n] == w'[..n];
  }

  lemma EffectAgrees(isa: Isa, mem: Memory, saved: Memory, r: Regs)
    requires Decodable(isa)
    requires Footprint(isa, mem + saved, r) !! saved.Keys
    ensures Code(isa, mem, r.pc) == Code(isa, mem + saved, r.pc)
    ensures EffectAt(isa, mem, r) == EffectAt(isa, mem + saved, r)
    ensures EffectAt(isa, mem, r).stores.Keys !! saved.Keys
  {
    forall i | 0 <= i < |Code(isa, mem + saved, r.pc)|
      ensures Plus(r.pc, i) !in saved
    {
      assert Plus(r.pc, i) in Footprint(isa, mem + saved, r);
    }
    CodeAgrees(isa, mem, saved, r.pc);
    var code := Code(isa, mem, r.pc);
    assert forall a :: a in isa.loads(code, r) ==> a in Footprint(isa, mem + saved, r);
    assert Loaded(isa, mem, r) == Loaded(isa, mem + saved, r);
    forall a | a in EffectAt(isa, mem, r).stores
      ensures a !in saved
    {
      assert a in Footprint(isa, mem + saved, r);
    }
  }

  lemma StepKeepsShape(isa: Isa, s: State, t: Tid)
    requires WellFormed(s)
    ensures WellFormed(Step(isa, s, t))
  {}

  /** A turn that runs into a patch changes nothing in the unpatched target. */
  lemma TrapIsInvisible(isa: Isa, s: State, saved: Memory, t: Tid)
    requires WellFormed(s) && Armed(s.mem, saved) && !Moves(s, saved, t)
    ensures Armed(Step(isa, s, t).mem, saved)
    ensures TrueState(Step(isa, s, t), saved) == TrueState(s, saved)
  {
    if t in s.threads && t !in s.trapped {
      DecInc(s.threads[t].pc);
      var s' := Step(isa, s, t);
      assert TrueState(s', saved).threads == TrueState(s, saved).threads;
      assert TrueState(s', saved).trapped == TrueState(s, saved).trapped;
    }
  }

  /** The program's own `int3` traps alike with and without patches. */
  lemma OwnTrapIsTrue(isa: Isa, s: State, saved: Memory, t: Tid)
    requires WellFormed(s) && Armed(s.mem, saved) && Moves(s, saved, t)
    requires Peek(s.mem, s.threads[t].pc) == INT3
    ensures Armed(Step(isa, s, t).mem, saved)
    ensures TrueState(Step(isa, s, t), saved) == Step(isa, TrueState(s, saved), t)
  {
    var u, s', r := TrueState(s, saved), Step(isa, s, t), s.threads[t];
    assert u.threads[t] == r && t !in u.trapped && Peek(u.mem, r.pc) == INT3;
    DecInc(r.pc);
    var u' := Step(isa, u, t);
    assert TrueState(s', saved).threads == u'.threads;
    assert TrueState(s', saved).trapped == u'.trapped;
  }

  /** The survivors of an effect, unpatched thread by thread; the trapped are among them. */
  lemma SurvivorsTrue(s: State, saved: Memory, t: Tid, e: Effect)
    requires WellFormed(s) && Moves(s, saved, t)
    ensures var others, others' := Survivors(s, t, e), Survivors(TrueState(s, saved), t, e);
      && others'.Keys == others.Keys && s.trapped <= others.Keys
      && forall x :: x in others ==> others'[x] == TrueRegs(others[x], x in s.trapped, saved)
  {
  }

  lemma ApplyThreads(s: State, saved: Memory, t: Tid, e: Effect)
    requires WellFormed(s) && Moves(s, saved, t)
    ensures TrueThreads(Apply(s, t, e), saved) == Apply(TrueState(s, saved), t, e).threads
  {
    SurvivorsTrue(s, saved, t, e);
    hide Survivors;
  }

  lemma ApplyTrapped(s: State, saved: Memory, t: Tid, e: Effect)
    requires WellFormed(s) && Moves(s, saved, t)
    ensures TrueTrapped(Apply(s, t, e), saved) == TrueTrapped(s, saved)
  {
    var s' := Apply(s, t, e);
    forall x | x in s.trapped
      ensures x in s'.threads && s'.threads[x] == s.threads[x]
    {
    }
  }

  lemma StoresMissPatches(mem: Memory, saved: Memory, stores: Memory)
    requires Armed(mem, saved) && stores.Keys !! saved.Keys
    ensures Armed(mem + stores, saved)
    ensures (mem + stores) + saved == (mem + saved) + stores
  {
    forall a | a in saved
      ensures a !in stores
    {
      assert a in saved.Keys;
    }
  }

  /** Applying an effect whose stores miss the patches commutes with hiding them. */
  lemma ApplyIsTrue(s: State, saved: Memory, t: Tid, e: Effect)
    requires WellFormed(s) && Armed(s.mem, saved) && Moves(s, saved, t)
    requires e.stores.Keys !! saved.Keys
    ensures Armed(Apply(s, t, e).mem, saved)
    ensures TrueState(Apply(s, t, e), saved) == Apply(TrueState(s, saved), t, e)
  {
    ApplyThreads(s, saved, t, e);
    ApplyTrapped(s, saved, t, e);
    StoresMissPatches(s.mem, saved, e.stores);
  }

  /** A turn that executes an instruction executes the program's own instruction. */
  lemma MoveIsTrue(isa: Isa, s: State, saved: Memory, t: Tid)
    requires Decodable(isa) && WellFormed(s) && Armed(s.mem, saved) && Moves(s, saved, t)
    requires Clean(isa, TrueState(s, saved), saved.Keys, t)
    ensures Armed(Step(isa, s, t).mem, saved)
    ensures TrueState(Step(isa, s, t), saved) == Step(isa, TrueState(s, saved), t)
  {
    var u, r := TrueState(s, saved), s.threads[t];
    assert u.threads[t] == r && t !in u.trapped && Peek(u.mem, r.pc) == Peek(s.mem, r.pc);
    if Peek(s.mem, r.pc) == INT3 {
      OwnTrapIsTrue(isa, s, saved, t);
    } else {
      EffectAgrees(isa, s.mem, saved, r);
      ApplyIsTrue(s, saved, t, EffectAt(isa, s.mem, r));
    }
  }

  /** A patched run is the unpatched run of the turns that execute instructions. */
  lemma {:induction false} RunSimulates(isa: Isa, s: State, saved: Memory, sched: seq<Tid>)
    requires Decodable(isa) && WellFormed(s) && Armed(s.mem, saved)
    requires CleanRun(isa, TrueState(s, saved), saved.Keys, Effective(isa, s, saved, sched))
    ensures WellFormed(Run(isa, s, sched)) && Armed(Run(isa, s, sched).mem, saved)
    ensures TrueState(Run(isa, s, sched), saved)
         == Run(isa, TrueState(s, saved), Effective(isa, s, saved, sched))
    decreases |sched|
  {
    if sched != [] {
      var t, s' := sched[0], Step(isa, s, sched[0]);
      var rest := Effective(isa, s', saved, sched[1..]);
      StepKeepsShape(isa, s, t);
      if Moves(s, saved, t) {
        assert Effective(isa, s, saved, sched) == [t] + rest;
        MoveIsTrue(isa, s, saved, t);
      } else {
        assert Effective(isa, s, saved, sched) == rest;
        TrapIsInvisible(isa, s, saved, t);
      }
      RunSimulates(isa, s', saved, sched[1..]);
    }
  }
}
