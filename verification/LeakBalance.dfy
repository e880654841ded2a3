/** Calls made against calls noted, over a whole hidden run of the leak tracker with any
    number of threads: how many are missed, and how many counted again. */
module LeakBalance {
  import opened Words
  import opened Machine
  import opened Engine
  import opened Transparency
  import opened Session
  import opened LeakTracking
  import opened LeakHeap
  import opened LeakCalls
  import opened Passes
  import opened LeakRuns
  import opened LeakCommands
  import LeakSession

  /** Is this stop one at which the tracker counts a call? */
  predicate CallNoted(t: Tracker, d: Dbg) {
    OnStop(t, d).2 == Some(true) && WhereIs(t, CurrentPc(d)) != AtReturn
  }

  /** How many calls the tracker counts along the run, up to the last stop that is handled
      and continued from. */
  function CallsNoted(p: Platform, t: Tracker, d: Dbg, status: Status, envs: seq<(Env, Env)>): nat
    decreases |envs|
  {
    if !status.Stopped? || OnStop(t, d).2 != Some(true) || envs == [] then 0
    else
      var (t1, d1, _) := OnStop(t, d);
      var (d2, out) := Cont(p, d1, envs[0].0, envs[0].1);
      (if CallNoted(t, d) then 1 else 0)
      + (if out.Done? then CallsNoted(p, t1, d2, out.status, envs[1..]) else 0)
  }

  /** For each call counted, how often the entry point is executed while it is out, less
      the one time that was announced. */
  function Unannounced(p: Platform, t: Tracker, d: Dbg, status: Status, envs: seq<(Env, Env)>): int
    decreases |envs|
  {
    if !status.Stopped? || OnStop(t, d).2 != Some(true) || envs == [] then 0
    else
      var (t1, d1, _) := OnStop(t, d);
      var (d2, out) := Cont(p, d1, envs[0].0, envs[0].1);
      (if CallNoted(t, d) then TurnsAtStop(p, t, d, envs[0].0, envs[0].1) - 1 else 0)
      + (if out.Done? then Unannounced(p, t1, d2, out.status, envs[1..]) else 0)
  }

  lemma PushMovesNobody(t: Tracker, d: Dbg, r: Regs, size: Word)
    ensures CurrentRegs(PushPending(t, d, r, size).1) == CurrentRegs(d)
  {
    hide ReadWord, AddPending;
  }

  lemma RemoveMovesNobody(d: Dbg, a: Word)
    ensures CurrentRegs(RemoveBp(d, a).0) == CurrentRegs(d)
  {
  }

  lemma RegsStay(t: Tracker, d: Dbg, r: Regs)
    ensures CurrentRegs(OnRegs(t, d, r).1) == CurrentRegs(d)
    ensures OnRegs(t, d, r).2 == Some(true) ==> WhereIs(t, r.pc) != Elsewhere
  {
    PushMovesNobody(t, d, r, r.rdi);
    PushMovesNobody(t, d, r, SaturatingMul(r.rdi, r.rsi));
    PushMovesNobody(Forget(t, r.rdi), d, r, r.rsi);
    RemoveMovesNobody(d, r.pc);
    hide PushPending, RemoveBp, Forget, PopReturn, CurrentRegs, SaturatingMul;
  }

  /** Handling a stop moves no thread and keeps the tracker's entry points. */
  lemma HandlingKeeps(t: Tracker, d: Dbg)
    requires OnStop(t, d).2 == Some(true)
    ensures CurrentRegs(d).Some? && CurrentRegs(OnStop(t, d).1) == CurrentRegs(d)
    ensures AllocatorOf(OnStop(t, d).0) == AllocatorOf(t) && WhereIs(t, CurrentPc(d)) != Elsewhere
  {
    LeakSession.OnStopKeepsEntries(t, d);
    if CurrentRegs(d).Some? {
      RegsStay(t, d, CurrentRegs(d).value);
    }
    hide OnRegs, CurrentRegs, WhereIs;
  }

  /** The calls in one `cont` from a handled stop. */
  lemma ContCalls(p: Platform, t: Tracker, d: Dbg, h: Heap, e1: Env, e2: Env, user: set<Word>)
    requires Decodable(p.isa) && Consistent(d) && LeakSession.Booked(t, d.bps.Keys, user)
    requires LeakSession.SiteIsFree(t, d) && OnStop(t, d).2 == Some(true) && GoodCont(p, OnStop(t, d).1, e1, e2)
    ensures Consistent(OnStop(t, d).1) && View(OnStop(t, d).1) == View(d)
    ensures CallsIn(Heard(p, t, d, h, e1, e2)) == if CallNoted(t, d) then TurnsAtStop(p, t, d, e1, e2) else 0
  {
    var (t1, d1, _) := OnStop(t, d);
    LeakSession.HandlingIsInvisible(t, d, user);
    HandlingKeeps(t, d);
    var r := CurrentRegs(d).value;
    SelectedAt(d1, r);
    hide Decodable, Consistent, View, OnStop, GoodCont, Cont, Stage, ContRuns, ObserveActs, CallsIn, TurnsAt;
    hide LeakSession.Booked, LeakSession.SiteIsFree, CurrentRegs, WhereIs;
    EntriesArmed(t, t1, d1.bps.Keys, user);
    EntryIff(t, r.pc);
    CallsCounted(AllocatorOf(t), p, d1, r.pc, h, e1, e2);
  }

  /** Over any hidden run, the calls the program makes are the calls the tracker counts and
      the executions of an entry point that no stop announces; a stop that is repeated
      before its thread has moved counts as minus one. */
  lemma {:induction false} CallsBalance(p: Platform, t: Tracker, d: Dbg, h: Heap, status: Status,
                                        envs: seq<(Env, Env)>, user: set<Word>)
    requires Decodable(p.isa) && GoodHidden(p, t, d, status, envs)
    requires status.Stopped? ==> d.alive
    requires d.alive ==> Consistent(d) && LeakSession.Booked(t, d.bps.Keys, user)
    ensures CallsIn(CallsMade(p, t, d, h, status, envs))
         == CallsNoted(p, t, d, status, envs) + Unannounced(p, t, d, status, envs)
    decreases |envs|
  {
    if !status.Stopped? || OnStop(t, d).2 != Some(true) || envs == [] {
      assert HiddenRuns(p, t, d, status, envs) == [];
    } else {
      BalanceStep(p, t, d, h, status, envs, user);
      var (t1, d1, _) := OnStop(t, d);
      var (d2, out) := Cont(p, d1, envs[0].0, envs[0].1);
      hide Decodable, Consistent, View, OnStop, Cont, GoodCont, GoodHidden, LeakSession.Booked, CallsMade, CallsIn;
      hide HeapBy, TurnsAtStop, CallNoted, Heard;
      if out.Done? {
        CallsBalance(p, t1, d2, HeapBy(h, Heard(p, t, d, h, envs[0].0, envs[0].1)), out.status, envs[1..], user);
      }
    }
  }

  lemma BalanceStep(p: Platform, t: Tracker, d: Dbg, h: Heap, status: Status, envs: seq<(Env, Env)>, user: set<Word>)
    requires Decodable(p.isa) && GoodHidden(p, t, d, status, envs)
    requires status.Stopped? && OnStop(t, d).2 == Some(true) && envs != []
    requires Consistent(d) && LeakSession.Booked(t, d.bps.Keys, user)
    ensures Consistent(OnStop(t, d).1)
    ensures var (t1, d1, _) := OnStop(t, d);
      var (d2, out) := Cont(p, d1, envs[0].0, envs[0].1);
      out.Done? ==>
        && GoodHidden(p, t1, d2, out.status, envs[1..]) && (out.status.Stopped? ==> d2.alive)
        && (d2.alive ==> Consistent(d2) && LeakSession.Booked(t1, d2.bps.Keys, user))
    ensures var es := Heard(p, t, d, h, envs[0].0, envs[0].1);
      CallsIn(CallsMade(p, t, d, h, status, envs))
      == (if CallNoted(t, d) then TurnsAtStop(p, t, d, envs[0].0, envs[0].1) else 0)
         + CallsIn(CallsAfter(p, t, d, HeapBy(h, es), envs))
  {
    assert d.alive;
    var (t1, d1, _) := OnStop(t, d);
    var (d2, out) := Cont(p, d1, envs[0].0, envs[0].1);
    assert LeakSession.SiteIsFree(t, d) && GoodCont(p, d1, envs[0].0, envs[0].1);
    assert out.Done? ==> GoodHidden(p, t1, d2, out.status, envs[1..]);
    hide Decodable, Consistent, View, OnStop, Cont, GoodCont, LeakSession.Booked, LeakSession.SiteIsFree, GoodHidden;
    hide CallsIn, CallsMade, CallsAfter, HeapBy, TurnsAtStop, CallNoted, ContRuns, ContActs, Heard, Replay;
    LeakSession.HandlingIsInvisible(t, d, user);
    HandlingKeeps(t, d);
    ContEnds(p, d1, envs[0].0, envs[0].1);
    ContCalls(p, t, d, h, envs[0].0, envs[0].1, user);
    CallsUnfold(p, t, d, h, status, envs);
    var es := Heard(p, t, d, h, envs[0].0, envs[0].1);
    CallsInConcat(es, CallsAfter(p, t, d, HeapBy(h, es), envs));
  }

  /** Unless the target ends in a step-over, what is executed is what the user is shown to
      have run, as in `LeakSession.TrackedRun` and `LeakCommands.RoundsInOrder`. */
  lemma {:induction false} RunsAreActs(p: Platform, t: Tracker, d: Dbg, status: Status, envs: seq<(Env, Env)>,
                                       user: set<Word>)
    requires Decodable(p.isa) && GoodHidden(p, t, d, status, envs)
    requires status.Stopped? ==> d.alive
    requires d.alive ==> Consistent(d) && LeakSession.Booked(t, d.bps.Keys, user)
    requires AutoCont(p, t, d, status, envs).2 != Some(Failed)
    ensures HiddenRuns(p, t, d, status, envs) == LeakSession.HiddenActs(p, t, d, status, envs)
    decreases |envs|
  {
    hide Decodable, Consistent, View, OnStop, Cont, GoodCont, LeakSession.Booked, LeakSession.SiteIsFree;
    hide ContRuns, ContActs, Replay;
    if status.Stopped? && OnStop(t, d).2 == Some(true) && envs != [] {
      var (t1, d1, _) := OnStop(t, d);
      var (d2, out) := Cont(p, d1, envs[0].0, envs[0].1);
      LeakSession.HandlingIsInvisible(t, d, user);
      ContEnds(p, d1, envs[0].0, envs[0].1);
      NoAbort(p, d1, envs[0].0, envs[0].1);
      if out.Done? {
        RunsAreActs(p, t1, d2, out.status, envs[1..], user);
      }
    }
  }

  lemma NoAbort(p: Platform, d: Dbg, e1: Env, e2: Env)
    requires Decodable(p.isa) && Consistent(d) && GoodCont(p, d, e1, e2)
    ensures Cont(p, d, e1, e2).1 != Panicked
  {
    hide Cont, GoodCont, Consistent, View, ContActs, Replay;
    ContTransparent(p, d, e1, e2);
  }

  // ---------- none missed

  /** At every stop of the run that is counted as a call, the entry point is executed while
      it is out, so that no stop is repeated. */
  predicate NoneRepeats(p: Platform, t: Tracker, d: Dbg, status: Status, envs: seq<(Env, Env)>)
    decreases |envs|
  {
    status.Stopped? && OnStop(t, d).2 == Some(true) && envs != [] ==>
      var (t1, d1, _) := OnStop(t, d);
      var (d2, out) := Cont(p, d1, envs[0].0, envs[0].1);
      && (CallNoted(t, d) ==> TurnsAtStop(p, t, d, envs[0].0, envs[0].1) > 0)
      && (out.Done? ==> NoneRepeats(p, t1, d2, out.status, envs[1..]))
  }

  /** It is executed exactly once. */
  predicate OnceEach(p: Platform, t: Tracker, d: Dbg, status: Status, envs: seq<(Env, Env)>)
    decreases |envs|
  {
    status.Stopped? && OnStop(t, d).2 == Some(true) && envs != [] ==>
      var (t1, d1, _) := OnStop(t, d);
      var (d2, out) := Cont(p, d1, envs[0].0, envs[0].1);
      && (CallNoted(t, d) ==> TurnsAtStop(p, t, d, envs[0].0, envs[0].1) == 1)
      && (out.Done? ==> OnceEach(p, t1, d2, out.status, envs[1..]))
  }

  lemma {:induction false} UnannouncedIff(p: Platform, t: Tracker, d: Dbg, status: Status, envs: seq<(Env, Env)>)
    requires NoneRepeats(p, t, d, status, envs)
    ensures Unannounced(p, t, d, status, envs) >= 0
    ensures Unannounced(p, t, d, status, envs) == 0 <==> OnceEach(p, t, d, status, envs)
    decreases |envs|
  {
    hide OnStop, Cont, CallNoted, TurnsAtStop;
    if status.Stopped? && OnStop(t, d).2 == Some(true) && envs != [] {
      var (t1, d1, _) := OnStop(t, d);
      var (d2, out) := Cont(p, d1, envs[0].0, envs[0].1);
      if out.Done? {
        UnannouncedIff(p, t1, d2, out.status, envs[1..]);
      }
    }
  }

  /** Over a run in which no stop is repeated, the tracker counts no call that is not made,
      and it counts them all if and only if at each stop the entry point is executed once. */
  lemma NoneMissedIff(p: Platform, t: Tracker, d: Dbg, h: Heap, status: Status, envs: seq<(Env, Env)>, user: set<Word>)
    requires Decodable(p.isa) && GoodHidden(p, t, d, status, envs) && NoneRepeats(p, t, d, status, envs)
    requires status.Stopped? ==> d.alive
    requires d.alive ==> Consistent(d) && LeakSession.Booked(t, d.bps.Keys, user)
    ensures CallsNoted(p, t, d, status, envs) <= CallsIn(CallsMade(p, t, d, h, status, envs))
    ensures CallsNoted(p, t, d, status, envs) == CallsIn(CallsMade(p, t, d, h, status, envs))
       <==> OnceEach(p, t, d, status, envs)
  {
    CallsBalance(p, t, d, h, status, envs, user);
    UnannouncedIff(p, t, d, status, envs);
    hide *;
  }
}
