/** What the stepping loops mean for a one-thread target: they stop at the first
    instruction of the unpatched run with a new source line, or with a changed cell. */
module SoloStepping {
  import opened Words
  import opened Machine
  import opened Engine
  import opened Transparency
  import opened Solo
  import opened Stepping

  /** The first `n` steps are ones `stepi` can take. */
  ghost predicate AllSteppable(p: Platform, d: Dbg, t: Tid, envs: nat -> Env, n: nat) {
    forall i :: 0 <= i < n ==> StepOk(p, StepsTo(p, d, envs, i).0, t, envs(i))
  }

  ghost predicate StepOk(p: Platform, d: Dbg, t: Tid, env: Env) {
    Steppable(p, d, t) && !Stalls(p, d) && TrapEnv(env, t) && |env.sched| >= 2
  }

  lemma AfterNext(isa: Isa, u: State, t: Tid, n: nat)
    ensures After(isa, u, t, n + 1) == After(isa, After(isa, u, t, n), t, 1)
    decreases n
  {
    RepStep(isa, u, t, n + 1);
    if n > 0 {
      RepStep(isa, u, t, n);
      AfterNext(isa, Step(isa, u, t), t, n - 1);
    }
  }

  /** The session shows the program in state `u`, thread `t` selected. */
  ghost predicate Shows(d: Dbg, u: State, t: Tid, bps: set<Word>) {
    && Consistent(d) && View(d) == u && d.bps.Keys == bps
    && t in u.threads && CurrentRegs(d) == Some(u.threads[t])
    && (d.at.Some? <==> u.threads[t].pc in bps)
  }

  /** One step of the sequence advances the view by one instruction. */
  lemma OneStep(p: Platform, d: Dbg, t: Tid, env: Env)
    requires Decodable(p.isa) && Consistent(d) && StepOk(p, d, t, env)
    ensures IsStop(StepI(p, d, env).1)
    ensures Shows(StepI(p, d, env).0, After(p.isa, View(d), t, 1), t, d.bps.Keys)
  {
    StepIExact(p, d, t, env);
    StepLenUntrapped(p, d, t, 1);
    SoleThreadOf(StepI(p, d, env).0, t);
    hide StepI;
  }

  lemma NextShown(p: Platform, d: Dbg, u: State, t: Tid, env: Env)
    requires Decodable(p.isa) && Consistent(d) && View(d) == u && StepOk(p, d, t, env)
    ensures IsStop(StepI(p, d, env).1)
    ensures Shows(StepI(p, d, env).0, After(p.isa, u, t, 1), t, d.bps.Keys)
  {
    hide StepI;
    OneStep(p, d, t, env);
  }

  /** `n` steps show the unpatched target after `n` instructions. */
  lemma {:induction false} StepsAreInstructions(p: Platform, d: Dbg, t: Tid, envs: nat -> Env, n: nat)
    requires Decodable(p.isa) && Consistent(d) && AllSteppable(p, d, t, envs, n)
    ensures Consistent(StepsTo(p, d, envs, n).0) && StepsTo(p, d, envs, n).0.bps.Keys == d.bps.Keys
    ensures View(StepsTo(p, d, envs, n).0) == After(p.isa, View(d), t, n)
    ensures n > 0 ==> IsStop(StepsTo(p, d, envs, n).1)
    ensures n > 0 ==> Shows(StepsTo(p, d, envs, n).0, After(p.isa, View(d), t, n), t, d.bps.Keys)
    decreases n
  {
    hide StepI, StepOk, View, Consistent, CurrentRegs;
    if n > 0 {
      StepsAreInstructions(p, d, t, envs, n - 1);
      NextShown(p, StepsTo(p, d, envs, n - 1).0, After(p.isa, View(d), t, n - 1), t, envs(n - 1));
      AfterNext(p.isa, View(d), t, n - 1);
    }
  }

  /** While `step_line` goes on, the unpatched run is on the line it started from; where
      it stops by a change of line, the run has just left that line. */
  lemma LineStopsFirst(p: Platform, d: Dbg, t: Tid, envs: nat -> Env, lines: Word -> Option<Line>, k: nat)
    requires Decodable(p.isa) && Consistent(d) && AllSteppable(p, d, t, envs, k) && k > 0
    requires SameLineBefore(p, d, envs, lines, k)
    requires LineOf(StepsTo(p, d, envs, k).0, lines) != LineOf(d, lines)
    ensures forall i :: 1 <= i < k ==>
      var u := After(p.isa, View(d), t, i); t in u.threads && lines(u.threads[t].pc) == LineOf(d, lines)
    ensures var u := After(p.isa, View(d), t, k); t in u.threads && lines(u.threads[t].pc) != LineOf(d, lines)
  {
    hide StepI;
    forall i | 1 <= i <= k
      ensures var u := After(p.isa, View(d), t, i);
        t in u.threads && lines(u.threads[t].pc) == LineOf(StepsTo(p, d, envs, i).0, lines)
    {
      StepsAreInstructions(p, d, t, envs, i);
    }
    forall i | 1 <= i < k
      ensures LineOf(StepsTo(p, d, envs, i).0, lines) == LineOf(d, lines)
    {
      assert SameLine(p, d, envs, lines, i);
    }
  }

  /** Does the unpatched memory differ from what the watch recorded? */
  predicate Differs(u: State, w: Watch) {
    w.size > 0 && RangeMapped(u.mem, w.addr, w.size) && Slice(u.mem, w.addr, w.size) != w.prev
  }

  lemma ChangedIsTrue(d: Dbg, ws: seq<Watch>)
    requires Consistent(d) && forall w :: w in ws ==> w.size > 0
    ensures AnyChanged(d, ws) <==> exists w :: w in ws && Differs(View(d), w)
  {
    forall j | 0 <= j < |ws|
      ensures Changed(d, ws[j]) <==> Differs(View(d), ws[j])
    {
      ReadShowsView(d, ws[j].addr, ws[j].size);
      assert ws[j] in ws;
    }
  }

  /** While `soft_watch_cont` goes on, no watched cell of the unpatched run differs from
      its recorded value and no breakpoint is reached; where it stops after step `k`
      within its bound, one of the two has just happened. */
  lemma WatchStopsFirst(p: Platform, d: Dbg, t: Tid, envs: nat -> Env, ws: seq<Watch>, k: nat)
    requires Decodable(p.isa) && Consistent(d) && AllSteppable(p, d, t, envs, k) && k > 0
    requires forall w :: w in ws ==> w.size > 0
    requires QuietUpTo(p, d, envs, ws, k - 1) && !Quiet(p, d, envs, ws, k)
    ensures forall i :: 1 <= i <= k ==>
      var u := After(p.isa, View(d), t, i);
      t in u.threads &&
      ((u.threads[t].pc in d.bps || exists w :: w in ws && Differs(u, w)) <==> i == k)
  {
    hide StepI;
    forall i | 1 <= i <= k
      ensures var u := After(p.isa, View(d), t, i);
        t in u.threads &&
        ((u.threads[t].pc in d.bps || exists w :: w in ws && Differs(u, w)) <==> i == k)
    {
      StepsAreInstructions(p, d, t, envs, i);
      ChangedIsTrue(StepsTo(p, d, envs, i).0, ws);
      assert i < k ==> Quiet(p, d, envs, ws, i);
    }
  }
}
