/** An abstract multi-threaded target: memory, threads, and an instruction set
    given by three functions that see only the bytes of the current instruction,
    the registers of the executing thread and the memory it loads. */
module Machine {
  import opened Words

  type Tid = nat
  type Memory = map<Word, Byte>

  /** `int3`, the byte a breakpoint writes over the first byte of an instruction. */
  const INT3: Byte := 0xCC

  datatype Regs = Regs(pc: Word, rax: Word, rdi: Word, rsi: Word, rsp: Word, rbp: Word, rest: seq<Word>)

  /** What one instruction does: the thread's next registers (or its exit), the
      bytes it stores, and the threads it starts. */
  datatype Effect = Effect(next: Option<Regs>, stores: Memory, spawned: map<Tid, Regs>)

  datatype Isa = Isa(
    length: seq<Byte> -> nat,
    loads: (seq<Byte>, Regs) -> set<Word>,
    effect: (seq<Byte>, Regs, Memory) -> Effect)

  /** A target; `trapped` holds the threads waiting in the kernel after an `int3`. */
  datatype State = State(mem: Memory, threads: map<Tid, Regs>, trapped: set<Tid>)

  const MAX_INSN: nat := 15

  function Peek(mem: Memory, a: Word): Byte {
    if a in mem then mem[a] else 0
  }

  function Window(mem: Memory, pc: Word): (w: seq<Byte>)
    ensures |w| == MAX_INSN
  {
    seq(MAX_INSN, i requires 0 <= i < MAX_INSN => Peek(mem, Plus(pc, i)))
  }

  function InsnLen(isa: Isa, w: seq<Byte>): (n: nat)
    ensures 1 <= n <= MAX_INSN
  {
    var n := isa.length(w);
    if n < 1 then 1 else if n > MAX_INSN then MAX_INSN else n
  }

  /** The length of an instruction is decided by its own bytes. */
  ghost predicate Decodable(isa: Isa) {
    forall w: seq<Byte>, w': seq<Byte> ::
      |w| == MAX_INSN && |w'| == MAX_INSN && w[..InsnLen(isa, w)] == w'[..InsnLen(isa, w)]
      ==> InsnLen(isa, w') == InsnLen(isa, w)
  }

  function Code(isa: Isa, mem: Memory, pc: Word): seq<Byte> {
    var w := Window(mem, pc);
    w[..InsnLen(isa, w)]
  }

  function Loaded(isa: Isa, mem: Memory, r: Regs): Memory {
    map a | a in isa.loads(Code(isa, mem, r.pc), r) && a in mem :: mem[a]
  }

  function EffectAt(isa: Isa, mem: Memory, r: Regs): Effect {
    isa.effect(Code(isa, mem, r.pc), r, Loaded(isa, mem, r))
  }

  function Survivors(s: State, t: Tid, e: Effect): map<Tid, Regs> {
    match e.next
    case Some(r) => s.threads[t := r]
    case None => s.threads - {t}
  }

  function Apply(s: State, t: Tid, e: Effect): State {
    State(s.mem + e.stores, e.spawned + Survivors(s, t, e), s.trapped)
  }

  /** One scheduling decision: thread `t` runs one instruction, or traps on `int3`,
      or stays where it is because it is gone or already waiting after a trap. */
  function Step(isa: Isa, s: State, t: Tid): State {
    if t !in s.threads || t in s.trapped then s
    else if Peek(s.mem, s.threads[t].pc) == INT3 then
      var r := s.threads[t];
      s.(threads := s.threads[t := r.(pc := Inc(r.pc))], trapped := s.trapped + {t})
    else Apply(s, t, EffectAt(isa, s.mem, s.threads[t]))
  }

  function Run(isa: Isa, s: State, sched: seq<Tid>): State
    decreases |sched|
  {
    if sched == [] then s else Run(isa, Step(isa, s, sched[0]), sched[1..])
  }

  /** Delivering the stop and resuming wakes every trapped thread. */
  function Settle(s: State): State {
    s.(trapped := {})
  }

  lemma {:induction false} RunConcat(isa: Isa, s: State, a: seq<Tid>, b: seq<Tid>)
    ensures Run(isa, s, a + b) == Run(isa, Run(isa, s, a), b)
    decreases |a|
  {
    if a == [] {
      assert a + b == b;
    } else {
      assert (a + b)[0] == a[0] && (a + b)[1..] == a[1..] + b;
      RunConcat(isa, Step(isa, s, a[0]), a[1..], b);
    }
  }

  /** Every address the next instruction of `r` fetches, loads or stores. */
  function Footprint(isa: Isa, mem: Memory, r: Regs): set<Word> {
    (set i | 0 <= i < |Code(isa, mem, r.pc)| :: Plus(r.pc, i))
    + isa.loads(Code(isa, mem, r.pc), r)
    + EffectAt(isa, mem, r).stores.Keys
  }

  /** The next instruction of `t` keeps away from the addresses in `armed`. */
  predicate Clean(isa: Isa, u: State, armed: set<Word>, t: Tid) {
    t in u.threads && t !in u.trapped && Peek(u.mem, u.threads[t].pc) != INT3
    ==> Footprint(isa, u.mem, u.threads[t]) !! armed
  }

  predicate CleanRun(isa: Isa, u: State, armed: set<Word>, sched: seq<Tid>)
    decreases |sched|
  {
    sched == [] ||
    (Clean(isa, u, armed, sched[0]) && CleanRun(isa, Step(isa, u, sched[0]), armed, sched[1..]))
  }
}
