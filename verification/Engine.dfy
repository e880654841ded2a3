/** The breakpoint engine on x86_64 as functions on its state: what every public
    operation of the debugger does, error exits included. The scheduler, the kernel's
    thread listing and the stop event are the parameter `Env` of each resume. */
module Engine {
  import opened Words
  import opened Machine
  import opened Disasm

  const SIGTRAP: nat := 5

  datatype Bp = Bp(enabled: bool, saved: seq<Byte>)

  datatype Status = Stopped(signal: nat, pc: Word) | Exited(code: int) | Signaled(signal: nat)

  datatype Event = StopEvent(signal: nat) | ExitEvent(code: int) | KillEvent(signal: nat)

  /** One resume seen from outside: who ran and in which order, how the kernel lists
      the threads afterwards, and why the wait ended. */
  datatype Env = Env(sched: seq<Tid>, listing: seq<Tid>, event: Event)

  /** `Failed` is an error return, `Panicked` the abort of a failing `expect`. */
  datatype Outcome = Done(status: Status) | Failed | Panicked

  datatype Platform = Platform(isa: Isa, decode: seq<Byte> -> Option<Insn>)

  datatype Dbg = Dbg(
    alive: bool,
    target: State,
    bps: map<Word, Bp>,
    at: Option<Word>,
    threads: seq<Tid>,
    current: nat,
    last: Option<Status>)

  // ---------- the target seen through Mach calls

  /** Original bytes of the armed breakpoints. */
  function Saved(bps: map<Word, Bp>): Memory {
    map a | a in bps && bps[a].enabled && |bps[a].saved| == 1 :: bps[a].saved[0]
  }

  predicate IsArmed(d: Dbg, a: Word) {
    a in d.bps && d.bps[a].enabled
  }

  /** Calls fail once the target is gone, and at unmapped addresses. */
  predicate Reachable(d: Dbg, a: Word) {
    d.alive && a in d.target.mem
  }

  function CurrentRegs(d: Dbg): Option<Regs> {
    if d.alive && d.current < |d.threads| && d.threads[d.current] in d.target.threads
    then Some(d.target.threads[d.threads[d.current]]) else None
  }

  predicate RangeMapped(mem: Memory, a: Word, n: nat) {
    a + n <= WORD && forall x: Word :: a <= x < a + n ==> x in mem
  }

  function Slice(mem: Memory, a: Word, n: nat): (s: seq<Byte>)
    requires RangeMapped(mem, a, n)
    ensures |s| == n && forall i :: 0 <= i < n ==> s[i] == mem[a + i]
  {
    seq(n, i requires 0 <= i < n => assert (a + i) as Word in mem; mem[a + i])
  }

  /** `read_memory`: raw bytes with the original byte shown at armed addresses. */
  function ReadMem(d: Dbg, a: Word, n: nat): Option<seq<Byte>> {
    if n == 0 then Some([])
    else if d.alive && RangeMapped(d.target.mem, a, n) then
      Some(Slice(d.target.mem + Saved(d.bps), a, n))
    else None
  }

  function Overwrite(mem: Memory, a: Word, data: seq<Byte>): Memory
    requires RangeMapped(mem, a, |data|)
  {
    map x | x in mem :: if a <= x < a + |data| then data[x - a] else mem[x]
  }

  /** `write_memory`: straight through to the raw bytes. */
  function WriteMem(d: Dbg, a: Word, data: seq<Byte>): (Dbg, bool) {
    if d.alive && RangeMapped(d.target.mem, a, |data|) then
      (d.(target := d.target.(mem := Overwrite(d.target.mem, a, data))), true)
    else (d, false)
  }

  // ---------- breakpoints

  function SetBp(d: Dbg, a: Word): (Dbg, bool) {
    if Reachable(d, a) then
      (d.(target := d.target.(mem := d.target.mem[a := INT3]),
          bps := d.bps[a := Bp(true, [d.target.mem[a]])]), true)
    else (d, false)
  }

  /** Puts the saved byte of an already removed breakpoint back. */
  function Disable(d: Dbg, a: Word, b: Bp): (Dbg, bool) {
    if !b.enabled then (d, true)
    else if Reachable(d, a) && |b.saved| == 1 then
      (d.(target := d.target.(mem := d.target.mem[a := b.saved[0]])), true)
    else (d, false)
  }

  function RemoveBp(d: Dbg, a: Word): (Dbg, bool) {
    var (d1, ok) := if a in d.bps then Disable(d.(bps := d.bps - {a}), a, d.bps[a]) else (d, true);
    if !ok then (d1, false)
    else (d1.(at := if d.at == Some(a) then None else d.at), true)
  }

  // ---------- resuming and stopping

  function IndexOf(s: seq<Tid>, t: Tid): (i: nat)
    ensures i <= |s|
    ensures i < |s| ==> s[i] == t
    ensures t !in s[..i] && (i == |s| ==> t !in s)
  {
    if s == [] then 0
    else if s[0] == t then 0
    else
      var i := IndexOf(s[1..], t);
      assert s[..i + 1] == [s[0]] + s[1..][..i];
      i + 1
  }

  /** The thread list after a stop; the selected thread is kept by its id. */
  function Refresh(d: Dbg, listing: seq<Tid>): Dbg {
    var i := if d.current < |d.threads| then IndexOf(listing, d.threads[d.current]) else 0;
    d.(threads := listing, current := if i < |listing| then i else 0)
  }

  function CurrentPc(d: Dbg): Word {
    match CurrentRegs(d)
    case Some(r) => r.pc
    case None => 0
  }

  /** PT_CONTINUE followed by the wait. */
  function Resume(isa: Isa, d: Dbg, env: Env): Dbg {
    var d1 := d.(target := Run(isa, Settle(d.target), env.sched));
    match env.event
    case StopEvent(signal) =>
      var d2 := Refresh(d1, env.listing);
      d2.(last := Some(Stopped(signal, CurrentPc(d2))))
    case ExitEvent(code) => d1.(alive := false, last := Some(Exited(code)))
    case KillEvent(signal) => d1.(alive := false, last := Some(Signaled(signal)))
  }

  /** The PC-only test for "this thread has just run into a breakpoint". */
  predicate LooksTrapped(d: Dbg, t: Tid) {
    t in d.target.threads && IsArmed(d, Dec(d.target.threads[t].pc))
  }

  function FirstHit(d: Dbg, threads: seq<Tid>): (i: nat)
    ensures i <= |threads|
    ensures i < |threads| ==> LooksTrapped(d, threads[i])
    ensures forall j :: 0 <= j < i ==> !LooksTrapped(d, threads[j])
  {
    if threads == [] || LooksTrapped(d, threads[0]) then 0
    else 1 + FirstHit(d, threads[1..])
  }

  function Rewound(d: Dbg): map<Tid, Regs> {
    map t | t in d.target.threads ::
      if t in d.threads && LooksTrapped(d, t)
      then d.target.threads[t].(pc := Dec(d.target.threads[t].pc)) else d.target.threads[t]
  }

  function Handle(d: Dbg): Dbg {
    if d.last.Some? && d.last.value.Stopped? && d.last.value.signal == SIGTRAP then
      var i := FirstHit(d, d.threads);
      var d1 := d.(target := d.target.(threads := Rewound(d)));
      if i < |d.threads| then
        var a := Dec(d.target.threads[d.threads[i]].pc);
        d1.(at := Some(a), current := i, last := Some(Stopped(SIGTRAP, a)))
      else d1
    else d
  }

  // ---------- stepping

  function PlantOne(d: Dbg, a: Word): (Dbg, bool) {
    if IsArmed(d, a) then (d, false) else SetBp(d, a)
  }

  /** Temporary breakpoints at the candidates that are not armed yet. */
  function Plant(d: Dbg, candidates: seq<Word>): (Dbg, seq<Word>)
    decreases |candidates|
  {
    if candidates == [] then (d, [])
    else
      var a := candidates[0];
      var (d1, ok) := PlantOne(d, a);
      var (d2, planted) := Plant(d1, candidates[1..]);
      (d2, (if ok then [a] else []) + planted)
  }

  function Unplant(d: Dbg, planted: seq<Word>): Dbg
    decreases |planted|
  {
    if planted == [] then d else Unplant(RemoveBp(d, planted[0]).0, planted[1..])
  }

  function Candidates(p: Platform, d: Dbg, pc: Word): seq<Word> {
    StepTargets(p.decode(ReadMem(d, pc, 16).GetOr([])), pc)
  }

  function StepCurrent(p: Platform, d: Dbg, env: Env): (Dbg, Outcome) {
    match CurrentRegs(d)
    case None => (d, Failed)
    case Some(r) =>
      var (d1, planted) := Plant(d, Candidates(p, d, r.pc));
      var d2 := Handle(Resume(p.isa, d1, env));
      (Unplant(d2, planted), Done(d2.last.value))
  }

  /** `set_pc` on the selected thread. */
  function ForcePc(d: Dbg, a: Word): Dbg
    requires CurrentRegs(d).Some?
  {
    var t := d.threads[d.current];
    d.(target := d.target.(threads := d.target.threads[t := d.target.threads[t].(pc := a)]))
  }

  /** Force the PC to the disarmed breakpoint `a`, single-step, arm it again. */
  function StepAndRearm(p: Platform, d: Dbg, a: Word, env: Env): (Dbg, Outcome)
    requires CurrentRegs(d).Some?
  {
    var (d1, out) := StepCurrent(p, ForcePc(d, a), env);
    if !out.Done? then (d1, out)
    else
      var (d2, ok) := SetBp(d1, a);
      if ok then (d2, out) else (d1, Failed)
  }

  /** Every error return in the middle of a step-over leaves the breakpoint out of the
      table, as the code does. */
  function StepOver(p: Platform, d: Dbg, a: Word, env: Env): (Dbg, Outcome) {
    if a !in d.bps then (d, Panicked)
    else
      var (d1, disarmed) := Disable(d.(bps := d.bps - {a}), a, d.bps[a]);
      if !disarmed || CurrentRegs(d1).None? then (d1, Failed) else StepAndRearm(p, d1, a, env)
  }

  function NoteLanding(d: Dbg): Dbg {
    match CurrentRegs(d)
    case Some(r) => if IsArmed(d, r.pc) then d.(at := Some(r.pc)) else d
    case None => d
  }

  function StepI(p: Platform, d: Dbg, env: Env): (Dbg, Outcome) {
    var (d1, out) :=
      if d.at.Some? then StepOver(p, d.(at := None), d.at.value, env) else StepCurrent(p, d, env);
    if !out.Done? then (d1, out)
    else
      var d2 := NoteLanding(d1);
      (d2, if d2.last.Some? then Done(d2.last.value) else Panicked)
  }

  // ---------- continuing

  function ContMain(p: Platform, d: Dbg, env: Env): (Dbg, Outcome) {
    if !d.alive then (d, Failed)
    else
      var d1 := Handle(Resume(p.isa, d, env));
      (d1, Done(d1.last.value))
  }

  function Cont(p: Platform, d: Dbg, e1: Env, e2: Env): (Dbg, Outcome) {
    if d.at.None? then ContMain(p, d, e2)
    else
      var (d1, out) := StepOver(p, d.(at := None), d.at.value, e1);
      if !out.Done? then (d1, out)
      else if d1.last.Some? && d1.last.value.Stopped? then ContMain(p, d1, e2)
      else (d1, if d1.last.Some? then Done(d1.last.value) else Panicked)
  }

  function ReadWord(d: Dbg, a: Word): Option<Word> {
    match ReadMem(d, a, 8)
    case Some(b) => Some(WordFromLe(b))
    case None => None
  }

  const PUSH_RBP: Byte := 0x55
  const MOV_RBP_RSP: seq<Byte> := [0x48, 0x89, 0xe5]

  /** Where the current function returns to, judged from the bytes at the PC. */
  function ReturnAddress(d: Dbg): Option<Word> {
    match CurrentRegs(d)
    case None => None
    case Some(r) =>
      var insn := ReadMem(d, r.pc, 3).GetOr([]);
      if |insn| > 0 && insn[0] == PUSH_RBP then ReadWord(d, r.rsp)
      else if insn == MOV_RBP_RSP then ReadWord(d, Plus(r.rsp, 8))
      else ReadWord(d, Plus(r.rbp, 8))
  }

  /** Takes the temporary breakpoint of `finish` away; after the end of the target only
      its table entry. */
  function Withdraw(d: Dbg, ret: Word, out: Outcome): (Dbg, Outcome) {
    if !out.Done? then (d, out)
    else if out.status.Stopped? then
      var (d1, removed) := RemoveBp(d, ret);
      (d1, if removed then out else Failed)
    else (d.(bps := d.bps - {ret}), out)
  }

  /** Continue with a breakpoint at `ret`, temporary unless the user has one there. */
  function RunTo(p: Platform, d: Dbg, ret: Word, e1: Env, e2: Env): (Dbg, Outcome) {
    var existing := ret in d.bps;
    var (d1, ok) := if existing then (d, true) else SetBp(d, ret);
    if !ok then (d1, Failed)
    else
      var (d2, out) := Cont(p, d1, e1, e2);
      if existing then (d2, out) else Withdraw(d2, ret, out)
  }

  function Finish(p: Platform, d: Dbg, e1: Env, e2: Env): (Dbg, Outcome) {
    match ReturnAddress(d)
    case Some(ret) => RunTo(p, d, ret, e1, e2)
    case None => (d, Failed)
  }

  function Select(d: Dbg, i: nat): (Dbg, bool) {
    if i < |d.threads| then (d.(current := i), true) else (d, false)
  }
}
