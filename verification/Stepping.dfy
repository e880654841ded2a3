/** Source-line stepping and software watchpoints: loops over `stepi`. */
module Stepping {
  import opened Words
  import opened Engine
  import opened DebuggerObject

  datatype Line = Line(path: string, line: nat)

  const MAX_LINE_STEPS: nat := 100_000
  const MAX_WATCH_STEPS: nat := 5_000_000

  /** The session and the last outcome after `i` single steps; step `i` happens as
      `envs(i)` says. */
  function StepsTo(p: Platform, d: Dbg, envs: nat -> Env, i: nat): (Dbg, Outcome) {
    if i == 0 then (d, Failed) else StepI(p, StepsTo(p, d, envs, i - 1).0, envs(i - 1))
  }

  predicate IsStop(out: Outcome) {
    out.Done? && out.status.Stopped?
  }

  /** No thread is listed twice after any step. */
  ghost predicate AllDistinct(envs: nat -> Env) {
    forall i :: Distinct(envs(i).listing)
  }

  /** One more step of the sequence. */
  method TakeStep(dbg: Debugger, envs: nat -> Env, k: nat, ghost d: Dbg) returns (out: Outcome)
    requires dbg.Valid() && AllDistinct(envs)
    requires dbg.Abs() == StepsTo(dbg.platform, d, envs, k).0
    modifies dbg, dbg.target, dbg.breakpoints.Values
    ensures dbg.Valid() && fresh(dbg.breakpoints.Values - old(dbg.breakpoints.Values))
    ensures (dbg.Abs(), out) == StepsTo(dbg.platform, d, envs, k + 1)
  {
    out := dbg.StepInstruction(envs(k));
  }

  /** The source line at the PC, if there is one. */
  function LineOf(d: Dbg, lines: Word -> Option<Line>): Option<Line> {
    match CurrentRegs(d)
    case Some(r) => lines(r.pc)
    case None => None
  }

  /** Step `i` stopped on the source line stepping started from. */
  predicate SameLine(p: Platform, d: Dbg, envs: nat -> Env, lines: Word -> Option<Line>, i: nat) {
    var (d1, out) := StepsTo(p, d, envs, i);
    IsStop(out) && LineOf(d1, lines) == LineOf(d, lines)
  }

  ghost predicate SameLineBefore(p: Platform, d: Dbg, envs: nat -> Env, lines: Word -> Option<Line>, k: nat) {
    forall i :: 1 <= i < k ==> SameLine(p, d, envs, lines, i)
  }

  lemma SameLineNext(p: Platform, d: Dbg, envs: nat -> Env, lines: Word -> Option<Line>, k: nat)
    requires SameLineBefore(p, d, envs, lines, k)
    requires var (d1, out) := StepsTo(p, d, envs, k); IsStop(out) && LineOf(d1, lines) == LineOf(d, lines)
    ensures SameLineBefore(p, d, envs, lines, k + 1)
  {
    hide StepI;
  }

  /** `d1` and `out` are the state and outcome after `k` steps, all earlier ones on the line
      stepping started from. */
  ghost predicate OnLine(p: Platform, d: Dbg, envs: nat -> Env, lines: Word -> Option<Line>, k: nat,
                         d1: Dbg, out: Outcome) {
    (d1, out) == StepsTo(p, d, envs, k) && SameLineBefore(p, d, envs, lines, k)
  }

  method FirstStep(dbg: Debugger, lines: Word -> Option<Line>, envs: nat -> Env) returns (out: Outcome)
    requires dbg.Valid() && AllDistinct(envs)
    modifies dbg, dbg.target, dbg.breakpoints.Values
    ensures dbg.Valid() && fresh(dbg.breakpoints.Values - old(dbg.breakpoints.Values))
    ensures OnLine(dbg.platform, old(dbg.Abs()), envs, lines, 1, dbg.Abs(), out)
  {
    hide StepI;
    ghost var d := dbg.Abs();
    out := TakeStep(dbg, envs, 0, d);
  }

  /** The next step, after step `k` ended on the line stepping started from. */
  method LineStep(dbg: Debugger, lines: Word -> Option<Line>, envs: nat -> Env, k: nat, before: Outcome, ghost d: Dbg)
    returns (out: Outcome)
    requires dbg.Valid() && AllDistinct(envs)
    requires OnLine(dbg.platform, d, envs, lines, k, dbg.Abs(), before)
    requires IsStop(before) && LineOf(dbg.Abs(), lines) == LineOf(d, lines)
    modifies dbg, dbg.target, dbg.breakpoints.Values
    ensures dbg.Valid() && fresh(dbg.breakpoints.Values - old(dbg.breakpoints.Values))
    ensures OnLine(dbg.platform, d, envs, lines, k + 1, dbg.Abs(), out)
  {
    hide StepI;
    SameLineNext(dbg.platform, d, envs, lines, k);
    out := TakeStep(dbg, envs, k, d);
  }

  /** Why stepping from `d` has ended in `d1` after `k` steps. */
  predicate LineStepsEnd(d: Dbg, d1: Dbg, lines: Word -> Option<Line>, out: Outcome, k: nat) {
    || LineOf(d, lines).None?
    || !IsStop(out)
    || LineOf(d1, lines) != LineOf(d, lines)
    || k == 100_001
  }

  /** Steps until the source line changes: `k` is the first step after which it has, the
      target is no longer stopped, or the bound is passed; one step without line
      information at the start. */
  method StepLine(dbg: Debugger, lines: Word -> Option<Line>, envs: nat -> Env)
    returns (out: Outcome, ghost k: nat)
    requires dbg.Valid() && AllDistinct(envs)
    modifies dbg, dbg.target, dbg.breakpoints.Values
    ensures dbg.Valid() && 1 <= k <= 100_001
    ensures OnLine(dbg.platform, old(dbg.Abs()), envs, lines, k, dbg.Abs(), out)
    ensures LineStepsEnd(old(dbg.Abs()), dbg.Abs(), lines, out, k)
  {
    hide OnLine, LineOf, AllDistinct;
    ghost var d, p := dbg.Abs(), dbg.platform;
    var start := CurrentLine(dbg, lines);
    out := FirstStep(dbg, lines, envs);
    k := 1;
    if start.None? { return; }
    var n := 0;
    while n < MAX_LINE_STEPS
      invariant 0 <= n <= MAX_LINE_STEPS && k == n + 1
      invariant dbg.Valid() && fresh(dbg.breakpoints.Values - old(dbg.breakpoints.Values))
      invariant OnLine(p, d, envs, lines, k, dbg.Abs(), out)
    {
      if !IsStop(out) { return; }
      var now := CurrentLine(dbg, lines);
      if now != start { return; }
      out := LineStep(dbg, lines, envs, n + 1, out, d);
      n, k := n + 1, k + 1;
    }
  }

  method CurrentLine(dbg: Debugger, lines: Word -> Option<Line>) returns (line: Option<Line>)
    ensures line == LineOf(dbg.Abs(), lines)
  {
    var regs := dbg.Registers();
    line := if regs.Some? then lines(regs.value.pc) else None;
  }

  // ---------- software watchpoints

  datatype Watch = Watch(addr: Word, size: nat, prev: seq<Byte>)

  /** Has the watched cell, if readable, changed since it was last recorded? */
  predicate Changed(d: Dbg, w: Watch) {
    var now := ReadMem(d, w.addr, w.size);
    now.Some? && now.value != w.prev
  }

  predicate AnyChanged(d: Dbg, ws: seq<Watch>) {
    exists j :: 0 <= j < |ws| && Changed(d, ws[j])
  }

  /** `hit` is the first changed watch, whose recorded value is brought up to date in `ws'`. */
  ghost predicate Checked(d: Dbg, ws: seq<Watch>, hit: Option<nat>, ws': seq<Watch>) {
    match hit
    case None => ws' == ws && !AnyChanged(d, ws)
    case Some(j) =>
      && j < |ws| && Changed(d, ws[j]) && (forall i :: 0 <= i < j ==> !Changed(d, ws[i]))
      && ws' == ws[j := ws[j].(prev := ReadMem(d, ws[j].addr, ws[j].size).value)]
  }

  method CheckSoftWatches(dbg: Debugger, ws: seq<Watch>) returns (hit: Option<nat>, ws': seq<Watch>)
    requires dbg.Valid()
    ensures Checked(dbg.Abs(), ws, hit, ws')
    ensures hit.Some? <==> AnyChanged(dbg.Abs(), ws)
  {
    var j := 0;
    while j < |ws|
      invariant 0 <= j <= |ws|
      invariant forall i :: 0 <= i < j ==> !Changed(dbg.Abs(), ws[i])
    {
      var now := dbg.ReadMemory(ws[j].addr, ws[j].size);
      if now.Some? && now.value != ws[j].prev {
        return Some(j), ws[j := ws[j].(prev := now.value)];
      }
      j := j + 1;
    }
    return None, ws;
  }

  /** Step `i` stopped with no watch changed and not at a breakpoint. */
  predicate Quiet(p: Platform, d: Dbg, envs: nat -> Env, ws: seq<Watch>, i: nat) {
    var (d1, out) := StepsTo(p, d, envs, i);
    IsStop(out) && !AnyChanged(d1, ws) && d1.at.None?
  }

  ghost predicate QuietUpTo(p: Platform, d: Dbg, envs: nat -> Env, ws: seq<Watch>, k: nat) {
    forall i :: 1 <= i <= k ==> Quiet(p, d, envs, ws, i)
  }

  lemma QuietNext(p: Platform, d: Dbg, envs: nat -> Env, ws: seq<Watch>, k: nat, d1: Dbg, out: Outcome)
    requires QuietUpTo(p, d, envs, ws, k) && (d1, out) == StepsTo(p, d, envs, k + 1)
    requires IsStop(out) && !AnyChanged(d1, ws) && d1.at.None?
    ensures QuietUpTo(p, d, envs, ws, k + 1)
  {
    hide StepI;
  }

  /** Step `k + 1` and the checks after it. */
  method WatchStep(dbg: Debugger, ws: seq<Watch>, envs: nat -> Env, k: nat, ghost d: Dbg)
    returns (out: Outcome, ws': seq<Watch>, done: bool)
    requires dbg.Valid() && AllDistinct(envs)
    requires dbg.Abs() == StepsTo(dbg.platform, d, envs, k).0
    requires QuietUpTo(dbg.platform, d, envs, ws, k)
    modifies dbg, dbg.target, dbg.breakpoints.Values
    ensures dbg.Valid() && fresh(dbg.breakpoints.Values - old(dbg.breakpoints.Values))
    ensures (dbg.Abs(), out) == StepsTo(dbg.platform, d, envs, k + 1)
    ensures done <==> !IsStop(out) || AnyChanged(dbg.Abs(), ws) || dbg.at.Some?
    ensures !done ==> QuietUpTo(dbg.platform, d, envs, ws, k + 1)
    ensures if IsStop(out) then exists hit :: Checked(dbg.Abs(), ws, hit, ws') else ws' == ws
  {
    hide StepI;
    out := TakeStep(dbg, envs, k, d);
    if !IsStop(out) { return out, ws, true; }
    var hit;
    hit, ws' := CheckSoftWatches(dbg, ws);
    done := hit.Some? || dbg.at.Some?;
    if !done {
      QuietNext(dbg.platform, d, envs, ws, k, dbg.Abs(), out);
    }
  }

  /** Continues by single steps: `k` is the first step after which a watch has changed, a
      breakpoint is reached or the target is no longer stopped, or the bound. */
  method SoftWatchCont(dbg: Debugger, ws: seq<Watch>, envs: nat -> Env)
    returns (out: Outcome, ws': seq<Watch>, ghost k: nat)
    requires dbg.Valid() && AllDistinct(envs)
    modifies dbg, dbg.target, dbg.breakpoints.Values
    ensures dbg.Valid() && 1 <= k <= 5_000_000
    ensures dbg.Abs() == StepsTo(dbg.platform, old(dbg.Abs()), envs, k).0
    ensures QuietUpTo(dbg.platform, old(dbg.Abs()), envs, ws, k - 1)
    ensures
      || (out == StepsTo(dbg.platform, old(dbg.Abs()), envs, k).1
          && (!IsStop(out) || AnyChanged(dbg.Abs(), ws) || dbg.at.Some?))
      || (k == 5_000_000 && QuietUpTo(dbg.platform, old(dbg.Abs()), envs, ws, k)
          && out == Done(Stopped(SIGTRAP, CurrentPc(dbg.Abs()))))
    ensures if IsStop(out) then exists hit :: Checked(dbg.Abs(), ws, hit, ws') else ws' == ws
  {
    hide StepI;
    ghost var d, p := dbg.Abs(), dbg.platform;
    k, ws', out := 0, ws, Failed;
    var n, done := 0, false;
    while n < MAX_WATCH_STEPS
      invariant 0 <= n <= MAX_WATCH_STEPS && k == n && ws' == ws
      invariant dbg.Valid() && fresh(dbg.breakpoints.Values - old(dbg.breakpoints.Values))
      invariant dbg.Abs() == StepsTo(p, d, envs, k).0
      invariant QuietUpTo(p, d, envs, ws, k)
    {
      out, ws', done := WatchStep(dbg, ws, envs, n, d);
      n, k := n + 1, k + 1;
      if done { return; }
    }
    var regs := dbg.Registers();
    assert Quiet(p, d, envs, ws, k) && Checked(dbg.Abs(), ws, None, ws');
    out := Done(Stopped(SIGTRAP, if regs.Some? then regs.value.pc else 0));
  }
}
