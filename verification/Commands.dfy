/** Any sequence of user commands. */
module Commands {
  import opened Words
  import opened Machine
  import opened Overlay
  import opened Engine
  import opened Transparency
  import opened Session

  datatype Cmd =
    | SetAt(a: Word)
    | RemoveAt(a: Word)
    | StepOne(e: Env)
    | Continue(e1: Env, e2: Env)
    | FinishFn(e1: Env, e2: Env)
    | Poke(a: Word, data: seq<Byte>)
    | SelectThread(i: nat)

  /** The session after the command, and whether the command panicked. */
  function Do(p: Platform, d: Dbg, cmd: Cmd): (Dbg, bool) {
    match cmd
    case SetAt(a) => (SetBp(d, a).0, false)
    case RemoveAt(a) => (RemoveBp(d, a).0, false)
    case StepOne(e) => (StepI(p, d, e).0, StepI(p, d, e).1.Panicked?)
    case Continue(e1, e2) => (Cont(p, d, e1, e2).0, Cont(p, d, e1, e2).1.Panicked?)
    case FinishFn(e1, e2) => (Finish(p, d, e1, e2).0, Finish(p, d, e1, e2).1.Panicked?)
    case Poke(a, data) => (WriteMem(d, a, data).0, false)
    case SelectThread(i) => (Select(d, i).0, false)
  }

  /** What the code asks of its user: no second breakpoint at the same address, no write
      over an armed byte, no other thread selected between a hit and the resume, and
      resumes as in `GoodStint`. */
  ghost predicate GoodCmd(p: Platform, d: Dbg, cmd: Cmd) {
    match cmd
    case SetAt(a) => a !in d.bps
    case RemoveAt(a) => true
    case StepOne(e) => GoodStepI(p, d, e)
    case Continue(e1, e2) => GoodCont(p, d, e1, e2)
    case FinishFn(e1, e2) =>
      ReturnAddress(d).Some? ==> GoodRunTo(p, d, ReturnAddress(d).value, e1, e2)
    case Poke(a, data) => forall x :: x in d.bps ==> !(a <= x < a + |data|)
    case SelectThread(i) => i < |d.threads| ==> AtIsCurrent(d.(current := i))
  }

  ghost function CmdActs(p: Platform, d: Dbg, cmd: Cmd): seq<Act>
    requires Consistent(d)
  {
    match cmd
    case SetAt(_) => []
    case RemoveAt(_) => []
    case StepOne(e) => StepIActs(p, d, e)
    case Continue(e1, e2) => ContActs(p, d, e1, e2)
    case FinishFn(e1, e2) =>
      if ReturnAddress(d).Some? then RunToActs(p, d, ReturnAddress(d).value, e1, e2) else []
    case Poke(a, data) => [Poked(a, data)]
    case SelectThread(_) => []
  }

  function BpsAfter(d: Dbg, cmd: Cmd): set<Word> {
    match cmd
    case SetAt(a) => if a in d.target.mem then d.bps.Keys + {a} else d.bps.Keys
    case RemoveAt(a) => d.bps.Keys - {a}
    case _ => d.bps.Keys
  }

  lemma PokeShows(d: Dbg, a: Word, data: seq<Byte>)
    requires Consistent(d)
    requires forall x :: x in d.bps ==> !(a <= x < a + |data|)
    ensures Consistent(WriteMem(d, a, data).0)
    ensures forall isa :: View(WriteMem(d, a, data).0) == Perform(isa, View(d), Poked(a, data))
    ensures WriteMem(d, a, data).0.bps == d.bps
  {
    SavedIsTable(d);
    assert View(d).mem.Keys == d.target.mem.Keys;
    if RangeMapped(d.target.mem, a, |data|) {
      WriteExactIff(d, a, data);
    }
  }

  lemma SetShows(d: Dbg, a: Word)
    requires Consistent(d) && a !in d.bps
    ensures Consistent(SetBp(d, a).0) && View(SetBp(d, a).0) == View(d)
    ensures SetBp(d, a).0.bps.Keys == if a in d.target.mem then d.bps.Keys + {a} else d.bps.Keys
  {
    if a in d.target.mem {
      hide SetBp, Consistent, View;
      SetBpConsistent(d, a);
    }
  }

  lemma SelectShows(d: Dbg, i: nat)
    requires Consistent(d) && (i < |d.threads| ==> AtIsCurrent(d.(current := i)))
    ensures Consistent(Select(d, i).0) && View(Select(d, i).0) == View(d) && Select(d, i).0.bps == d.bps
  {
  }

  lemma FinishUnfolds(p: Platform, d: Dbg, e1: Env, e2: Env)
    ensures Finish(p, d, e1, e2) ==
      if ReturnAddress(d).Some? then RunTo(p, d, ReturnAddress(d).value, e1, e2) else (d, Failed)
  {
    hide RunTo, ReturnAddress;
  }

  /** One command under its conditions: no panic, and either the target is over or the
      invariant, the expected breakpoints and the unpatched program's state. */
  lemma DoShows(p: Platform, d: Dbg, cmd: Cmd)
    requires Decodable(p.isa) && Consistent(d) && GoodCmd(p, d, cmd)
    ensures var (d', panicked) := Do(p, d, cmd);
      && !panicked
      && (d'.alive ==>
          && Consistent(d') && d'.bps.Keys == BpsAfter(d, cmd)
          && View(d') == Replay(p.isa, View(d), CmdActs(p, d, cmd)))
  {
    ReplayNone(p.isa, View(d));
    hide SetBp, RemoveBp, StepI, Cont, Finish, WriteMem, GoodStepI, GoodCont, GoodRunTo, Consistent, View, Replay,
      StepIActs, ContActs, RunToActs, Decodable;
    match cmd
    case SetAt(a) => SetShows(d, a);
    case RemoveAt(a) =>
      RemoveBpConsistent(d, a);
      KeysLess(d.bps, a);
    case StepOne(e) => StepITransparent(p, d, e);
    case Continue(e1, e2) => ContTransparent(p, d, e1, e2);
    case FinishFn(e1, e2) =>
      FinishUnfolds(p, d, e1, e2);
      hide RunTo, ReturnAddress;
      if ReturnAddress(d).Some? { RunToTransparent(p, d, ReturnAddress(d).value, e1, e2); }
    case Poke(a, data) =>
      PokeShows(d, a, data);
      ReplayOne(p.isa, View(d), Poked(a, data));
    case SelectThread(i) => SelectShows(d, i);
  }

  /** A session starts consistent once its first thread listing is complete. */
  lemma AttachConsistent(state: State, listing: seq<Tid>)
    requires WellFormed(state) && ListsExactly(listing, state.threads)
    ensures Consistent(Dbg(true, state, map[], None, listing, 0, None))
  {
  }

  /** The session after the commands, as long as the target lives. */
  function DoAll(p: Platform, d: Dbg, cmds: seq<Cmd>): (Dbg, bool)
    decreases |cmds|
  {
    if cmds == [] || !d.alive then (d, false)
    else
      var (d1, panicked) := Do(p, d, cmds[0]);
      if panicked then (d1, true) else DoAll(p, d1, cmds[1..])
  }

  ghost predicate GoodSession(p: Platform, d: Dbg, cmds: seq<Cmd>)
    decreases |cmds|
  {
    cmds == [] || !d.alive ||
    (GoodCmd(p, d, cmds[0]) && GoodSession(p, Do(p, d, cmds[0]).0, cmds[1..]))
  }

  /** The unpatched program's history over the session. */
  ghost function SessionActs(p: Platform, d: Dbg, cmds: seq<Cmd>): seq<Act>
    decreases |cmds|
  {
    if cmds == [] || !Consistent(d) then []
    else CmdActs(p, d, cmds[0]) + SessionActs(p, Do(p, d, cmds[0]).0, cmds[1..])
  }

  /** Transparency over whole runs: whatever the commands, the threads and the schedule,
      no command panics, the invariant holds at the end, and registers and memory as
      shown are those of the unpatched target after the same instructions and edits. */
  lemma {:induction false} SessionTransparent(p: Platform, d: Dbg, cmds: seq<Cmd>)
    requires Decodable(p.isa) && Consistent(d) && GoodSession(p, d, cmds)
    ensures var (d', panicked) := DoAll(p, d, cmds);
      && !panicked
      && (d'.alive ==>
          && Consistent(d')
          && View(d') == Replay(p.isa, View(d), SessionActs(p, d, cmds)))
    decreases |cmds|
  {
    if cmds != [] {
      var d1 := Do(p, d, cmds[0]).0;
      DoShows(p, d, cmds[0]);
      if d1.alive {
        SessionTransparent(p, d1, cmds[1..]);
        ReplayConcat(p.isa, View(d), CmdActs(p, d, cmds[0]), SessionActs(p, d1, cmds[1..]));
      }
    }
  }
}
