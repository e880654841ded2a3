/** The leak tracker over a whole session: enable it, use the debugger in any way, disable
    it, and the user's own breakpoints are left. */
module LeakCommands {
  import opened Words
  import opened Machine
  import opened Engine
  import opened Transparency
  import opened Session
  import opened Commands
  import opened LeakTracking
  import opened LeakSession

  /** A user command, or a `continue` after which the tracker's stops are hidden. */
  datatype Round = Plain(cmd: Cmd) | Watched(e1: Env, e2: Env, envs: seq<(Env, Env)>)

  /** Tracker and session after the round, and whether the debugger aborted. */
  function Play(p: Platform, t: Tracker, d: Dbg, round: Round): (Tracker, Dbg, bool) {
    match round
    case Plain(cmd) => (t, Do(p, d, cmd).0, Do(p, d, cmd).1)
    case Watched(e1, e2, envs) =>
      var (d1, out) := Cont(p, d, e1, e2);
      if !out.Done? then (t, d1, out.Panicked?)
      else
        var (t2, d2, end) := AutoCont(p, t, d1, out.status, envs);
        (t2, d2, end == Some(Panicked))
  }

  function PlayAll(p: Platform, t: Tracker, d: Dbg, rounds: seq<Round>): (Tracker, Dbg, bool)
    decreases |rounds|
  {
    if rounds == [] || !d.alive then (t, d, false)
    else
      var (t1, d1, panicked) := Play(p, t, d, rounds[0]);
      if panicked then (t1, d1, true) else PlayAll(p, t1, d1, rounds[1..])
  }

  // ---------- what the code asks of its user and of the program

  /** Along the hidden run: return addresses free of other breakpoints, and resumes as in
      `GoodCont`. */
  ghost predicate GoodHidden(p: Platform, t: Tracker, d: Dbg, status: Status, envs: seq<(Env, Env)>)
    decreases |envs|
  {
    status.Stopped? && d.alive ==>
      && SiteIsFree(t, d)
      && var (t1, d1, handled) := OnStop(t, d);
        handled == Some(true) && envs != [] ==>
          && GoodCont(p, d1, envs[0].0, envs[0].1)
          && var (d2, out) := Cont(p, d1, envs[0].0, envs[0].1);
            out.Done? ==> GoodHidden(p, t1, d2, out.status, envs[1..])
  }

  /** Commands as in `GoodCmd`, and the tracker's own breakpoints left to the tracker. */
  ghost predicate GoodRound(p: Platform, t: Tracker, d: Dbg, round: Round) {
    match round
    case Plain(cmd) =>
      && GoodCmd(p, d, cmd)
      && (cmd.RemoveAt? ==> cmd.a !in Entries(t) && cmd.a !in t.pending)
    case Watched(e1, e2, envs) =>
      && GoodCont(p, d, e1, e2)
      && var (d1, out) := Cont(p, d, e1, e2); out.Done? ==> GoodHidden(p, t, d1, out.status, envs)
  }

  ghost predicate GoodRounds(p: Platform, t: Tracker, d: Dbg, rounds: seq<Round>)
    decreases |rounds|
  {
    rounds != [] && d.alive ==>
      && GoodRound(p, t, d, rounds[0])
      && var (t1, d1, _) := Play(p, t, d, rounds[0]); GoodRounds(p, t1, d1, rounds[1..])
  }

  // ---------- the user's breakpoints and the program's history

  function UserAfter(d: Dbg, user: set<Word>, round: Round): set<Word> {
    if !round.Plain? then user
    else
      match round.cmd
      case SetAt(a) => if a in d.target.mem then user + {a} else user
      case RemoveAt(a) => user - {a}
      case _ => user
  }

  function UserAtEnd(p: Platform, t: Tracker, d: Dbg, user: set<Word>, rounds: seq<Round>): set<Word>
    decreases |rounds|
  {
    if rounds == [] || !d.alive then user
    else
      var (t1, d1, _) := Play(p, t, d, rounds[0]);
      UserAtEnd(p, t1, d1, UserAfter(d, user, rounds[0]), rounds[1..])
  }

  ghost function RoundActs(p: Platform, t: Tracker, d: Dbg, round: Round): seq<Act>
    requires Consistent(d)
  {
    match round
    case Plain(cmd) => CmdActs(p, d, cmd)
    case Watched(e1, e2, envs) =>
      var (d1, out) := Cont(p, d, e1, e2);
      ContActs(p, d, e1, e2) + (if out.Done? then HiddenActs(p, t, d1, out.status, envs) else [])
  }

  ghost function AllActs(p: Platform, t: Tracker, d: Dbg, rounds: seq<Round>): seq<Act>
    decreases |rounds|
  {
    if rounds == [] || !Consistent(d) then []
    else
      var (t1, d1, _) := Play(p, t, d, rounds[0]);
      RoundActs(p, t, d, rounds[0]) + AllActs(p, t1, d1, rounds[1..])
  }

  // ---------- one hidden run

  /** While the target lives: the invariant, the books, and the program's state. */
  ghost predicate InOrder(p: Platform, t: Tracker, d: Dbg, user: set<Word>, v: State, acts: seq<Act>) {
    d.alive ==> Consistent(d) && Booked(t, d.bps.Keys, user) && View(d) == Replay(p.isa, v, acts)
  }

  lemma InOrderLater(p: Platform, t: Tracker, d: Dbg, user: set<Word>, v: State, first: seq<Act>, acts: seq<Act>)
    requires InOrder(p, t, d, user, Replay(p.isa, v, first), acts)
    ensures InOrder(p, t, d, user, v, first + acts)
  {
    ReplayConcat(p.isa, v, first, acts);
  }

  lemma ContInOrder(p: Platform, t: Tracker, d: Dbg, e1: Env, e2: Env, user: set<Word>)
    requires Decodable(p.isa) && Consistent(d) && Booked(t, d.bps.Keys, user) && GoodCont(p, d, e1, e2)
    ensures var (d1, out) := Cont(p, d, e1, e2);
      && out != Panicked && (out.Done? && out.status.Stopped? ==> d1.alive) && (d1.alive ==> out.Done?)
      && InOrder(p, t, d1, user, View(d), ContActs(p, d, e1, e2))
  {
    hide Cont, Consistent, View, Booked, GoodCont, Replay, ContActs;
    ContTransparent(p, d, e1, e2);
  }

  /** Whatever events its stops stand for, a hidden run keeps the books. */
  lemma {:induction false} HiddenInOrder(p: Platform, t: Tracker, d: Dbg, status: Status, envs: seq<(Env, Env)>,
                                         user: set<Word>)
    requires Decodable(p.isa) && GoodHidden(p, t, d, status, envs)
    requires status.Stopped? ==> d.alive
    requires d.alive ==> Consistent(d) && Booked(t, d.bps.Keys, user)
    ensures var (t1, d1, end) := AutoCont(p, t, d, status, envs);
      end != Some(Panicked) && InOrder(p, t1, d1, user, View(d), HiddenActs(p, t, d, status, envs))
    decreases |envs|
  {
    hide OnStop, Cont, Consistent, View, Booked, GoodCont, ContActs, SiteIsFree, Replay;
    ReplayNone(p.isa, View(d));
    if status.Stopped? {
      var (t1, d1, handled) := OnStop(t, d);
      HandlingIsInvisible(t, d, user);
      if handled == Some(true) && envs != [] {
        ContInOrder(p, t1, d1, envs[0].0, envs[0].1, user);
        var (d2, out) := Cont(p, d1, envs[0].0, envs[0].1);
        if out.Done? {
          HiddenInOrder(p, t1, d2, out.status, envs[1..], user);
          if d2.alive {
            var (t3, d3, _) := AutoCont(p, t1, d2, out.status, envs[1..]);
            InOrderLater(p, t3, d3, user, View(d), ContActs(p, d1, envs[0].0, envs[0].1),
                         HiddenActs(p, t1, d2, out.status, envs[1..]));
          }
        }
      }
    }
  }

  // ---------- one round

  lemma BooksAfter(t: Tracker, d: Dbg, cmd: Cmd, user: set<Word>)
    requires Booked(t, d.bps.Keys, user)
    requires cmd.SetAt? ==> cmd.a !in d.bps
    requires cmd.RemoveAt? ==> cmd.a !in Entries(t) && cmd.a !in t.pending
    ensures Booked(t, BpsAfter(d, cmd), UserAfter(d, user, Plain(cmd)))
  {
    match cmd
    case RemoveAt(a) => assert a !in Elems(Entries(t));
    case _ =>
  }

  lemma PlainInOrder(p: Platform, t: Tracker, d: Dbg, cmd: Cmd, user: set<Word>)
    requires Decodable(p.isa) && Consistent(d) && Booked(t, d.bps.Keys, user) && GoodRound(p, t, d, Plain(cmd))
    ensures var (d1, panicked) := Do(p, d, cmd);
      !panicked && InOrder(p, t, d1, UserAfter(d, user, Plain(cmd)), View(d), CmdActs(p, d, cmd))
  {
    BooksAfter(t, d, cmd, user);
    hide Do, Consistent, View, Booked, GoodCmd, CmdActs, Replay, BpsAfter, UserAfter;
    DoShows(p, d, cmd);
  }

  lemma WatchedInOrder(p: Platform, t: Tracker, d: Dbg, round: Round, user: set<Word>)
    requires Decodable(p.isa) && Consistent(d) && Booked(t, d.bps.Keys, user)
    requires round.Watched? && GoodRound(p, t, d, round)
    ensures var (t1, d1, panicked) := Play(p, t, d, round);
      !panicked && InOrder(p, t1, d1, user, View(d), RoundActs(p, t, d, round))
  {
    hide Cont, AutoCont, Consistent, View, Booked, GoodCont, GoodHidden, ContActs, HiddenActs, Replay;
    ContInOrder(p, t, d, round.e1, round.e2, user);
    var (d1, out) := Cont(p, d, round.e1, round.e2);
    if out.Done? {
      HiddenInOrder(p, t, d1, out.status, round.envs, user);
      var (t2, d2, _) := AutoCont(p, t, d1, out.status, round.envs);
      if d1.alive {
        InOrderLater(p, t2, d2, user, View(d), ContActs(p, d, round.e1, round.e2),
                     HiddenActs(p, t, d1, out.status, round.envs));
      } else {
        OverStays(p, t, d1, out.status, round.envs);
      }
    } else {
      assert ContActs(p, d, round.e1, round.e2) + [] == ContActs(p, d, round.e1, round.e2);
    }
  }

  lemma OverStays(p: Platform, t: Tracker, d: Dbg, status: Status, envs: seq<(Env, Env)>)
    requires !status.Stopped?
    ensures AutoCont(p, t, d, status, envs) == (t, d, Some(Done(status)))
  {
  }

  lemma RoundInOrder(p: Platform, t: Tracker, d: Dbg, round: Round, user: set<Word>)
    requires Decodable(p.isa) && Consistent(d) && Booked(t, d.bps.Keys, user) && GoodRound(p, t, d, round)
    ensures var (t1, d1, panicked) := Play(p, t, d, round);
      !panicked && InOrder(p, t1, d1, UserAfter(d, user, round), View(d), RoundActs(p, t, d, round))
  {
    hide Cont, AutoCont, Consistent, View, Booked, GoodRound, HiddenActs, ContActs, CmdActs, Do, InOrder;
    match round
    case Plain(cmd) => PlainInOrder(p, t, d, cmd, user);
    case Watched(_, _, _) => WatchedInOrder(p, t, d, round, user);
  }

  // ---------- the lists of pending calls

  /** Every return address in the table has a call waiting for it. */
  ghost predicate AllWaiting(t: Tracker) {
    forall s :: s in t.pending ==> t.pending[s] != []
  }

  lemma PushWaits(t: Tracker, d: Dbg, r: Regs, size: Word)
    requires AllWaiting(t)
    ensures AllWaiting(PushPending(t, d, r, size).0)
  {
    hide ReadWord, SetBp;
  }

  lemma StopWaits(t: Tracker, d: Dbg)
    requires AllWaiting(t)
    ensures AllWaiting(OnStop(t, d).0)
  {
    hide PushPending, RemoveBp;
    if CurrentRegs(d).Some? {
      var r := CurrentRegs(d).value;
      PushWaits(t, d, r, r.rdi);
      PushWaits(t, d, r, SaturatingMul(r.rdi, r.rsi));
      PushWaits(Forget(t, r.rdi), d, r, r.rsi);
      hide CurrentRegs, SaturatingMul;
    }
  }

  lemma {:induction false} RunWaits(p: Platform, t: Tracker, d: Dbg, status: Status, envs: seq<(Env, Env)>)
    requires AllWaiting(t)
    ensures AllWaiting(AutoCont(p, t, d, status, envs).0)
    decreases |envs|
  {
    hide OnStop, Cont, AllWaiting;
    StopWaits(t, d);
    if envs != [] {
      var (t1, d1, _) := OnStop(t, d);
      var (d2, out) := Cont(p, d1, envs[0].0, envs[0].1);
      if out.Done? {
        RunWaits(p, t1, d2, out.status, envs[1..]);
      }
    }
  }

  /** Whatever the user, the program and the schedule do, no list of pending calls is ever
      empty: the last entry the tracker takes is there. */
  lemma {:induction false} NeverEmpty(p: Platform, t: Tracker, d: Dbg, rounds: seq<Round>)
    requires AllWaiting(t)
    ensures AllWaiting(PlayAll(p, t, d, rounds).0)
    decreases |rounds|
  {
    hide AutoCont, Cont, Do, AllWaiting;
    if rounds != [] && d.alive {
      var (t1, d1, panicked) := Play(p, t, d, rounds[0]);
      if rounds[0].Watched? {
        var (d2, out) := Cont(p, d, rounds[0].e1, rounds[0].e2);
        if out.Done? {
          RunWaits(p, t, d2, out.status, rounds[0].envs);
        }
      }
      if !panicked {
        NeverEmpty(p, t1, d1, rounds[1..]);
      }
    }
  }

  // ---------- whole sessions

  /** Over any rounds the books stay in order: armed are the user's own breakpoints, the
      entry points and the return addresses pending, and the user sees the program's run. */
  lemma {:induction false} RoundsInOrder(p: Platform, t: Tracker, d: Dbg, rounds: seq<Round>, user: set<Word>)
    requires Decodable(p.isa) && Consistent(d) && Booked(t, d.bps.Keys, user) && GoodRounds(p, t, d, rounds)
    ensures var (t1, d1, panicked) := PlayAll(p, t, d, rounds);
      !panicked && InOrder(p, t1, d1, UserAtEnd(p, t, d, user, rounds), View(d), AllActs(p, t, d, rounds))
    ensures AllWaiting(t) ==> AllWaiting(PlayAll(p, t, d, rounds).0)
    decreases |rounds|
  {
    hide Play, Consistent, View, Booked, GoodRound, RoundActs, UserAfter, Replay, AllWaiting;
    if AllWaiting(t) {
      NeverEmpty(p, t, d, rounds);
    }
    ReplayNone(p.isa, View(d));
    if rounds != [] && d.alive {
      RoundInOrder(p, t, d, rounds[0], user);
      var (t1, d1, _) := Play(p, t, d, rounds[0]);
      if d1.alive {
        var user1 := UserAfter(d, user, rounds[0]);
        RoundsInOrder(p, t1, d1, rounds[1..], user1);
        var (t2, d2, _) := PlayAll(p, t1, d1, rounds[1..]);
        InOrderLater(p, t2, d2, UserAtEnd(p, t1, d1, user1, rounds[1..]), View(d), RoundActs(p, t, d, rounds[0]),
                     AllActs(p, t1, d1, rounds[1..]));
      }
    }
  }

  /** Enable the tracker, run any session, disable it: whatever its tables hold by then and
      in whatever order they are cleared, exactly the user's own breakpoints are left, and
      the user sees the unpatched program having run. */
  lemma TrackerLeavesNoTrace(p: Platform, d: Dbg, start: Tracker, rounds: seq<Round>, order: seq<Word>)
    requires Decodable(p.isa) && Consistent(d)
    requires start == Fresh(start.malloc, start.calloc, start.realloc, start.free) && AllNew(d, Entries(start))
    requires GoodRounds(p, start, SetAll(d, Entries(start)).0, rounds)
    requires Elems(order) == PlayAll(p, start, SetAll(d, Entries(start)).0, rounds).0.pending.Keys
    ensures SetAll(d, Entries(start)).1
    ensures var d0 := SetAll(d, Entries(start)).0;
      var (t1, d1, panicked) := PlayAll(p, start, d0, rounds);
      var d2 := Unplant(Unplant(d1, Entries(t1)), order);
      && !panicked
      && (d1.alive ==>
          && Consistent(d2) && d2.bps.Keys == UserAtEnd(p, start, d0, d.bps.Keys, rounds)
          && View(d2) == Replay(p.isa, View(d), AllActs(p, start, d0, rounds)))
  {
    hide Consistent, View, Booked, SetAll, PlayAll, Unplant, AllActs, UserAtEnd, GoodRounds, Replay;
    EnableBooks(d, start.malloc, start.calloc, start.realloc, start.free);
    var d0 := SetAll(d, Entries(start)).0;
    RoundsInOrder(p, start, d0, rounds, d.bps.Keys);
    var (t1, d1, _) := PlayAll(p, start, d0, rounds);
    if d1.alive {
      DisableRestores(t1, d1, UserAtEnd(p, start, d0, d.bps.Keys, rounds), order);
    }
  }
}
