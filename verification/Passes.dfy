/** Which instructions a `cont` lets the program execute at armed addresses: none, but for
    those of the first resume at the breakpoint that is being stepped over. */
module Passes {
  import opened Words
  import opened Machine
  import opened Overlay
  import opened Engine
  import opened Transparency
  import opened Stops
  import opened Session

  predicate Runs(u: State, x: Tid) {
    x in u.threads && x !in u.trapped
  }

  // ---------- runs that keep off a set of addresses

  /** Every turn of the run executes an instruction, none of them at an address in `off`. */
  predicate Clears(isa: Isa, u: State, sched: seq<Tid>, off: set<Word>)
    decreases |sched|
  {
    sched == [] ||
    (Runs(u, sched[0]) && u.threads[sched[0]].pc !in off && Clears(isa, Step(isa, u, sched[0]), sched[1..], off))
  }

  /** What a patched run executes is never at a patched address. */
  lemma {:induction false} EffectiveClears(isa: Isa, s: State, saved: Memory, sched: seq<Tid>)
    requires Decodable(isa) && WellFormed(s) && Armed(s.mem, saved)
    requires CleanRun(isa, TrueState(s, saved), saved.Keys, Effective(isa, s, saved, sched))
    ensures Clears(isa, TrueState(s, saved), Effective(isa, s, saved, sched), saved.Keys)
    decreases |sched|
  {
    hide Decodable, Armed, CleanRun, Step, TrueState, Moves;
    if sched != [] {
      var t, s' := sched[0], Step(isa, s, sched[0]);
      var rest := Effective(isa, s', saved, sched[1..]);
      StepKeepsShape(isa, s, t);
      if Moves(s, saved, t) {
        assert Effective(isa, s, saved, sched) == [t] + rest;
        CleanRunHead(isa, TrueState(s, saved), saved.Keys, t, rest);
        MoveIsTrue(isa, s, saved, t);
        MoverRuns(s, saved, t);
      } else {
        assert Effective(isa, s, saved, sched) == rest;
        TrapIsInvisible(isa, s, saved, t);
      }
      EffectiveClears(isa, s', saved, sched[1..]);
    }
  }

  lemma CleanRunHead(isa: Isa, u: State, armed: set<Word>, t: Tid, rest: seq<Tid>)
    requires CleanRun(isa, u, armed, [t] + rest)
    ensures Clean(isa, u, armed, t) && CleanRun(isa, Step(isa, u, t), armed, rest)
  {
    assert ([t] + rest)[1..] == rest;
  }

  lemma MoverRuns(s: State, saved: Memory, t: Tid)
    requires Moves(s, saved, t)
    ensures Runs(TrueState(s, saved), t) && TrueState(s, saved).threads[t].pc !in saved.Keys
  {
  }

  lemma StintClears(isa: Isa, d: Dbg, env: Env)
    requires Decodable(isa) && TableOk(d) && CleanRun(isa, View(d), d.bps.Keys, Executed(isa, d, env))
    ensures Clears(isa, View(d), Executed(isa, d, env), d.bps.Keys)
  {
    SavedIsTable(d);
    SettledIsView(d);
    EffectiveClears(isa, Settle(d.target), Saved(d.bps), env.sched);
  }

  // ---------- a thread that does not run stays

  lemma OtherStep(isa: Isa, u: State, x: Tid, y: Tid)
    requires x != y && x in u.threads
    ensures var u' := Step(isa, u, y);
      x in u'.threads && u'.threads[x] == u.threads[x] && (x in u'.trapped <==> x in u.trapped)
  {
  }

  lemma {:induction false} Idle(isa: Isa, u: State, x: Tid, sched: seq<Tid>)
    requires x in u.threads && x !in sched
    ensures var u' := Run(isa, u, sched); x in u'.threads && u'.threads[x] == u.threads[x]
    decreases |sched|
  {
    if sched != [] {
      OtherStep(isa, u, x, sched[0]);
      Idle(isa, Step(isa, u, sched[0]), x, sched[1..]);
    }
  }

  /** A thread in front of an address the run keeps off does not run. */
  lemma {:induction false} Parked(isa: Isa, u: State, x: Tid, sched: seq<Tid>, off: set<Word>)
    requires Clears(isa, u, sched, off) && x in u.threads && u.threads[x].pc in off
    ensures x !in sched
    decreases |sched|
  {
    if sched != [] {
      OtherStep(isa, u, x, sched[0]);
      Parked(isa, Step(isa, u, sched[0]), x, sched[1..], off);
    }
  }

  // ---------- counting executions

  /** How many instructions the run executes at `a`. */
  function TurnsAt(isa: Isa, u: State, sched: seq<Tid>, a: Word): nat
    decreases |sched|
  {
    if sched == [] then 0
    else (if Runs(u, sched[0]) && u.threads[sched[0]].pc == a then 1 else 0)
         + TurnsAt(isa, Step(isa, u, sched[0]), sched[1..], a)
  }

  lemma {:induction false} ClearsNone(isa: Isa, u: State, sched: seq<Tid>, off: set<Word>, a: Word)
    requires Clears(isa, u, sched, off) && a in off
    ensures TurnsAt(isa, u, sched, a) == 0
    decreases |sched|
  {
    if sched != [] {
      ClearsNone(isa, Step(isa, u, sched[0]), sched[1..], off, a);
    }
  }

  /** A thread in front of `a` that runs executes the instruction there. */
  lemma {:induction false} RunnerPasses(isa: Isa, u: State, x: Tid, sched: seq<Tid>, a: Word)
    requires Runs(u, x) && u.threads[x].pc == a && x in sched
    ensures TurnsAt(isa, u, sched, a) > 0
    decreases |sched|
  {
    if sched[0] != x {
      OtherStep(isa, u, x, sched[0]);
      RunnerPasses(isa, Step(isa, u, sched[0]), x, sched[1..], a);
    }
  }

  /** The same over a history of runs and edits. */
  function TurnsOver(isa: Isa, u: State, acts: seq<Act>, a: Word): nat
    decreases |acts|
  {
    if acts == [] then 0
    else (if acts[0].Ran? then TurnsAt(isa, u, acts[0].sched, a) else 0)
         + TurnsOver(isa, Perform(isa, u, acts[0]), acts[1..], a)
  }

  lemma TurnsOverOne(isa: Isa, u: State, sched: seq<Tid>, a: Word)
    ensures TurnsOver(isa, u, [Ran(sched)], a) == TurnsAt(isa, u, sched, a)
  {
    assert [Ran(sched)][1..] == [];
  }

  lemma TurnsOverTwo(isa: Isa, u: State, first: seq<Tid>, second: seq<Tid>, a: Word)
    ensures TurnsOver(isa, u, [Ran(first), Ran(second)], a)
         == TurnsAt(isa, u, first, a) + TurnsAt(isa, Settle(Run(isa, u, first)), second, a)
  {
    assert [Ran(first), Ran(second)][1..] == [Ran(second)];
    TurnsOverOne(isa, Settle(Run(isa, u, first)), second, a);
    hide TurnsAt, Run;
  }

  // ---------- the two resumes of `cont`

  /** The session of the first resume: the stop's breakpoint out, temporaries in. */
  function SteppingAt(p: Platform, d: Dbg): Dbg
    requires d.at.Some? && d.at.value in d.bps
  {
    Prepared(p, Disarmed(d.(at := None), d.at.value))
  }

  lemma SteppingShows(p: Platform, d: Dbg)
    requires Consistent(d) && d.at.Some?
    ensures TableOk(SteppingAt(p, d)) && View(SteppingAt(p, d)) == View(d)
    ensures d.bps.Keys <= SteppingAt(p, d).bps.Keys + {d.at.value}
  {
    TakeAt(d);
    DisarmedInvisible(d.(at := None), d.at.value);
    var d1 := Disarmed(d.(at := None), d.at.value);
    KeysBack(d.bps, d.at.value);
    PreparedShows(p, d1);
    hide Consistent, View, TableOk, Prepared, Disarmed;
  }

  lemma PreparedShows(p: Platform, d: Dbg)
    requires Consistent(d)
    ensures TableOk(Prepared(p, d)) && View(Prepared(p, d)) == View(d) && d.bps.Keys <= Prepared(p, d).bps.Keys
  {
    PlantInvisible(d, Candidates(p, d, CurrentPc(d)));
    PlantArms(d, Candidates(p, d, CurrentPc(d)));
    hide Plant, View, TableOk, Candidates;
  }

  lemma FirstClears(p: Platform, d: Dbg, env: Env)
    requires Decodable(p.isa) && Consistent(d) && d.at.Some? && GoodStepI(p, d, env)
    ensures Clears(p.isa, View(d), Executed(p.isa, SteppingAt(p, d), env), SteppingAt(p, d).bps.Keys)
  {
    SteppingShows(p, d);
    hide View, Consistent, TableOk, Executed, Clears, CleanRun;
    StintClears(p.isa, SteppingAt(p, d), env);
  }

  lemma ActsOf(p: Platform, d: Dbg, e1: Env, e2: Env)
    requires Consistent(d) && d.at.Some?
    ensures ContActs(p, d, e1, e2)
         == [Ran(Executed(p.isa, SteppingAt(p, d), e1)), Ran(Executed(p.isa, SteppedOver(p, d, e1), e2))]
  {
    hide Executed, SteppedOver, Prepared, Disarmed;
  }

  lemma FirstShows(p: Platform, d: Dbg, e1: Env)
    requires Decodable(p.isa) && Consistent(d) && d.at.Some? && GoodStepI(p, d, e1) && e1.event.StopEvent?
    ensures var d1 := SteppedOver(p, d, e1);
      && Consistent(d1) && d1.bps.Keys == d.bps.Keys
      && View(d1) == Replay(p.isa, View(d), StepIActs(p, d, e1))
  {
    TakeAt(d);
    StepOverTransparent(p, d.(at := None), d.at.value, e1);
    hide *;
  }

  /** What the first resume leaves for the second. */
  lemma SecondStarts(p: Platform, d: Dbg, e1: Env, e2: Env)
    requires Decodable(p.isa) && Consistent(d) && d.at.Some? && GoodCont(p, d, e1, e2) && e1.event.StopEvent?
    ensures var d1 := SteppedOver(p, d, e1);
      && Consistent(d1) && d1.bps.Keys == d.bps.Keys
      && View(d1) == Settle(Run(p.isa, View(d), Executed(p.isa, SteppingAt(p, d), e1)))
      && GoodStint(p.isa, d1, e2)
      && ContActs(p, d, e1, e2) == [Ran(Executed(p.isa, SteppingAt(p, d), e1)), Ran(Executed(p.isa, d1, e2))]
  {
    hide Decodable, Consistent, View, GoodStep, GoodStint, Executed, SteppedOver, Disarmed, Prepared, Run, Replay;
    FirstShows(p, d, e1);
    ReplayOne(p.isa, View(d), Ran(Executed(p.isa, SteppingAt(p, d), e1)));
  }

  /** The runs of the program that `cont` makes, up to the end of the target. */
  ghost function ContRuns(p: Platform, d: Dbg, e1: Env, e2: Env): seq<Act>
    requires Consistent(d)
  {
    if d.at.Some? && !e1.event.StopEvent? then StepIActs(p, d, e1) else ContActs(p, d, e1, e2)
  }

  lemma OneRun(p: Platform, d: Dbg, e1: Env, e2: Env)
    requires Consistent(d)
    ensures d.at.None? ==> ContRuns(p, d, e1, e2) == [Ran(Executed(p.isa, d, e2))]
    ensures d.at.Some? && !e1.event.StopEvent? ==>
      ContRuns(p, d, e1, e2) == [Ran(Executed(p.isa, SteppingAt(p, d), e1))]
  {
    hide Executed, Prepared, Disarmed;
  }

  /** Any number of threads: `cont` executes no instruction at an armed address, except in
      its first resume at the breakpoint it steps over. Whatever other threads execute
      there passes the breakpoint without a stop. */
  lemma PassesOnlyAtStop(p: Platform, d: Dbg, e1: Env, e2: Env, b: Word)
    requires Decodable(p.isa) && Consistent(d) && GoodCont(p, d, e1, e2) && b in d.bps
    ensures TurnsOver(p.isa, View(d), ContRuns(p, d, e1, e2), b) ==
      if d.at == Some(b) then TurnsAt(p.isa, View(d), Executed(p.isa, SteppingAt(p, d), e1), b) else 0
  {
    OneRun(p, d, e1, e2);
    hide Decodable, Consistent, View, GoodStint, Executed, SteppingAt, Clears, TurnsAt, TurnsOver, TableOk;
    if d.at.Some? {
      FirstNone(p, d, e1, b);
      if e1.event.StopEvent? {
        SecondNone(p, d, e1, e2, b);
      } else {
        TurnsOverOne(p.isa, View(d), Executed(p.isa, SteppingAt(p, d), e1), b);
      }
    } else {
      OnlyNone(p, d, e2, b);
    }
  }

  lemma FirstNone(p: Platform, d: Dbg, e1: Env, b: Word)
    requires Decodable(p.isa) && Consistent(d) && d.at.Some? && GoodStepI(p, d, e1) && b in d.bps
    ensures d.at.value != b ==> TurnsAt(p.isa, View(d), Executed(p.isa, SteppingAt(p, d), e1), b) == 0
  {
    hide Decodable, Consistent, View, Executed, SteppingAt, Clears, TurnsAt, TableOk, GoodStep;
    FirstClears(p, d, e1);
    SteppingShows(p, d);
    if d.at.value != b {
      ClearsNone(p.isa, View(d), Executed(p.isa, SteppingAt(p, d), e1), SteppingAt(p, d).bps.Keys, b);
    }
  }

  lemma SecondNone(p: Platform, d: Dbg, e1: Env, e2: Env, b: Word)
    requires Decodable(p.isa) && Consistent(d) && d.at.Some? && GoodCont(p, d, e1, e2) && e1.event.StopEvent?
    requires b in d.bps
    ensures TurnsOver(p.isa, View(d), ContRuns(p, d, e1, e2), b)
         == TurnsAt(p.isa, View(d), Executed(p.isa, SteppingAt(p, d), e1), b)
  {
    SecondStarts(p, d, e1, e2);
    var first, d1 := Executed(p.isa, SteppingAt(p, d), e1), SteppedOver(p, d, e1);
    hide Decodable, View, GoodCont, Executed, SteppingAt, SteppedOver, ContActs, Clears, TurnsAt, TurnsOver;
    StintClears(p.isa, d1, e2);
    ClearsNone(p.isa, View(d1), Executed(p.isa, d1, e2), d.bps.Keys, b);
    TurnsOverTwo(p.isa, View(d), first, Executed(p.isa, d1, e2), b);
  }

  lemma OnlyNone(p: Platform, d: Dbg, env: Env, b: Word)
    requires Decodable(p.isa) && Consistent(d) && GoodStint(p.isa, d, env) && b in d.bps
    ensures TurnsOver(p.isa, View(d), [Ran(Executed(p.isa, d, env))], b) == 0
  {
    hide View, Executed, Clears, TurnsAt, TurnsOver;
    StintClears(p.isa, d, env);
    ClearsNone(p.isa, View(d), Executed(p.isa, d, env), d.bps.Keys, b);
    TurnsOverOne(p.isa, View(d), Executed(p.isa, d, env), b);
  }
}
