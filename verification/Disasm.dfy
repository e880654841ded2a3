/** Where the instruction at the PC may go next: the candidate set of `stepi`. */
module Disasm {
  import opened Words
  import opened Machine

  /** What the disassembler reports: length, mnemonic, and the operand when it is an
      immediate address. */
  datatype Insn = Insn(len: nat, mnemonic: string, target: Option<Word>)

  predicate IsBranch(m: string) {
    m == "call" || "j" <= m || "loop" <= m
  }

  predicate IsUnconditional(m: string) {
    m == "jmp" || m == "call"
  }

  function Fallthrough(insn: Insn, pc: Word): Word {
    Plus(pc, if insn.len == 0 then 1 else insn.len)
  }

  function SortedPair(a: Word, b: Word): seq<Word> {
    if a == b then [a] else if a < b then [a, b] else [b, a]
  }

  function StepTargets(insn: Option<Insn>, pc: Word): (targets: seq<Word>)
    ensures 1 <= |targets| <= 2
    ensures forall i, j :: 0 <= i < j < |targets| ==> targets[i] < targets[j]
  {
    match insn
    case None => [Plus(pc, 1)]
    case Some(i) =>
      if IsBranch(i.mnemonic) && i.target.Some? then
        if IsUnconditional(i.mnemonic) then [i.target.value]
        else SortedPair(i.target.value, Fallthrough(i, pc))
      else [Fallthrough(i, pc)]
  }

  // ---------- where instructions really go

  /** The control flow of an instruction, as the instruction set has it. */
  datatype Flow = Sequential | Jump(target: Word) | Conditional(target: Word) | Indirect

  predicate MayGoTo(flow: Flow, after: Word, next: Word) {
    match flow
    case Sequential => next == after
    case Jump(target) => next == target
    case Conditional(target) => next == target || next == after
    case Indirect => true
  }

  /** `jmp` and `call` always leave for their operand. */
  predicate NamesJump(m: string) {
    m == "jmp" || m == "call"
  }

  /** Any other name in `j` (`je`, `jrcxz`), and `loop`, `loope`, `loopne`, may leave. */
  predicate NamesConditional(m: string) {
    !NamesJump(m) && ((|m| >= 1 && m[0] == 'j') || (|m| >= 4 && m[..4] == ['l', 'o', 'o', 'p']))
  }

  /** The report names that flow; an indirect branch has no target, and `ret` is no branch. */
  predicate Reports(i: Insn, flow: Flow) {
    var branch := NamesJump(i.mnemonic) || NamesConditional(i.mnemonic);
    && i.len > 0
    && match flow
       case Sequential => !branch
       case Jump(target) => NamesJump(i.mnemonic) && i.target == Some(target)
       case Conditional(target) => NamesConditional(i.mnemonic) && i.target == Some(target)
       case Indirect => !branch || i.target.None?
  }

  /** Report and instruction set agree on the instruction at the PC of `r`: its length, its
      flow, and where executing it leads. */
  predicate Agrees(isa: Isa, i: Insn, mem: Memory, r: Regs, flow: Flow) {
    && i.len == |Code(isa, mem, r.pc)| && Reports(i, flow)
    && (EffectAt(isa, mem, r).next.Some? ==>
          MayGoTo(flow, Plus(r.pc, i.len), EffectAt(isa, mem, r).next.value.pc))
  }

  lemma InPair(a: Word, b: Word, next: Word)
    ensures next in SortedPair(a, b) <==> next == a || next == b
  {
    var pair := SortedPair(a, b);
    assert pair[0] in pair && pair[|pair| - 1] in pair;
  }

  /** What the code tests for is what the names say. */
  lemma NamesTested(m: string)
    ensures IsUnconditional(m) <==> NamesJump(m)
    ensures IsBranch(m) <==> NamesJump(m) || NamesConditional(m)
  {
    assert "jmp"[..1] == "j" && "loop" == ['l', 'o', 'o', 'p'];
    assert "j" <= m <==> |m| >= 1 && m[0] == 'j';
    assert "loop" <= m <==> |m| >= 4 && m[..4] == "loop";
  }

  /** For any flow but an indirect one the candidates are exactly the places the
      instruction may go. */
  lemma TargetsAreSuccessors(i: Insn, pc: Word, flow: Flow, next: Word)
    requires Reports(i, flow) && !flow.Indirect?
    ensures next in StepTargets(Some(i), pc) <==> MayGoTo(flow, Plus(pc, i.len), next)
  {
    NamesTested(i.mnemonic);
    match flow
    case Sequential =>
    case Jump(_) =>
    case Conditional(target) => InPair(target, Plus(pc, i.len), next);
  }

  /** What the code falls back to when nothing is decoded, or no length is reported. */
  lemma NothingDecoded(pc: Word, m: string)
    ensures StepTargets(None, pc) == [Plus(pc, 1)]
    ensures StepTargets(Some(Insn(0, m, None)), pc) == [Plus(pc, 1)]
  {
  }

  /** A conditional jump at 100, two bytes long, and other instructions there. */
  lemma SomeTargets()
    ensures StepTargets(Some(Insn(2, "je", Some(200))), 100) == [102, 200]
    ensures StepTargets(Some(Insn(2, "jne", Some(80))), 100) == [80, 102]
    ensures StepTargets(Some(Insn(2, "jg", Some(102))), 100) == [102]
    ensures StepTargets(Some(Insn(2, "loopne", Some(90))), 100) == [90, 102]
    ensures StepTargets(Some(Insn(5, "jmp", Some(200))), 100) == [200]
    ensures StepTargets(Some(Insn(5, "call", Some(200))), 100) == [200]
    ensures StepTargets(Some(Insn(2, "call", None)), 100) == [102]
    ensures StepTargets(Some(Insn(1, "ret", None)), 100) == [101]
    ensures StepTargets(Some(Insn(3, "mov", Some(200))), 100) == [103]
  {
    NamesTested("je");
    NamesTested("jne");
    NamesTested("jg");
    NamesTested("loopne");
    NamesTested("jmp");
    NamesTested("call");
    NamesTested("ret");
    NamesTested("mov");
  }

  /** Executing the instruction at the PC leads to a candidate exactly when its flow is
      direct or it happens to go to the next instruction. */
  lemma SuccessorIsCandidateIff(isa: Isa, i: Insn, mem: Memory, r: Regs, flow: Flow)
    requires Agrees(isa, i, mem, r, flow) && EffectAt(isa, mem, r).next.Some?
    ensures var next := EffectAt(isa, mem, r).next.value.pc;
      next in StepTargets(Some(i), r.pc) <==> !flow.Indirect? || next == Plus(r.pc, i.len)
  {
    hide EffectAt, Code;
    NamesTested(i.mnemonic);
    if !flow.Indirect? {
      TargetsAreSuccessors(i, r.pc, flow, EffectAt(isa, mem, r).next.value.pc);
    }
  }
}
