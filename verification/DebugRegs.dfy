/** Debug registers: the DR7 fields of x86_64 and the watchpoint control values of ARM64
    (Intel SDM volume 3B, section "Debug Control Register (DR7)"). */
module DebugRegs {
  import opened Words
  import opened Bits

  datatype WatchCondition = Execute | Write | IoRW | ReadWrite {
    function Code(): (c: nat)
      ensures c < 4
    {
      match this
      case Execute => 0
      case Write => 1
      case IoRW => 2
      case ReadWrite => 3
    }
  }

  datatype WatchLen = Byte1 | Word2 | QWord8 | Dword4 {
    function Code(): (c: nat)
      ensures c < 4
    {
      match this
      case Byte1 => 0
      case Word2 => 1
      case QWord8 => 2
      case Dword4 => 3
    }

    function AsBytes(): (n: nat)
      ensures 1 <= n <= 8
    {
      match this
      case Byte1 => 1
      case Word2 => 2
      case Dword4 => 4
      case QWord8 => 8
    }
  }

  /** A watchpoint as the slot tables keep it. */
  datatype Watch = Watch(addr: Word, cond: WatchCondition, len: WatchLen)

  type Slot = s: nat | s < 4

  // ---------- DR7

  function EnableBit(slot: Slot): nat { slot * 2 }

  function RwShift(slot: Slot): nat { 16 + slot * 4 }

  function LenShift(slot: Slot): nat { 18 + slot * 4 }

  function Dr7Mask(slot: Slot): Word {
    Or64(Or64(Shl(3, RwShift(slot)), Shl(3, LenShift(slot))), Shl(3, EnableBit(slot)))
  }

  function Dr7ClearSlot(dr7: Word, slot: Slot): Word {
    And64(dr7, Not64(Dr7Mask(slot)))
  }

  function Dr7SetSlot(dr7: Word, slot: Slot, cond: WatchCondition, len: WatchLen): Word {
    Or64(Or64(Or64(Dr7ClearSlot(dr7, slot), Shl(1, EnableBit(slot))), Shl(cond.Code(), RwShift(slot))),
         Shl(len.Code(), LenShift(slot)))
  }

  // ---------- what DR7 says

  /** The two bits at `at` as a number. */
  function Field(x: Word, at: nat): (f: nat)
    ensures f < 4
  {
    BitAt(x, at) + 2 * BitAt(x, at + 1)
  }

  function CondOf(f: nat): WatchCondition {
    if f == 0 then Execute else if f == 1 then Write else if f == 2 then IoRW else ReadWrite
  }

  function LenOf(f: nat): WatchLen {
    if f == 0 then Byte1 else if f == 1 then Word2 else if f == 2 then QWord8 else Dword4
  }

  datatype Watching = Off | On(cond: WatchCondition, len: WatchLen)

  /** Reads a slot the way the processor does, at the positions of the SDM: the local enable
      L0 to L3 at 0, 2, 4 and 6, the condition R/W0 to R/W3 at 16, 20, 24 and 28, the length
      LEN0 to LEN3 at 18, 22, 26 and 30. */
  function Decode(dr7: Word, slot: Slot): Watching {
    if BitAt(dr7, 2 * slot) == 0 then Off
    else On(CondOf(Field(dr7, 16 + 4 * slot)), LenOf(Field(dr7, 18 + 4 * slot)))
  }

  /** The bits that belong to a slot: L and G, R/W and LEN. */
  predicate InSlot(slot: Slot, i: nat) {
    i == 2 * slot || i == 2 * slot + 1 || 16 + 4 * slot <= i < 20 + 4 * slot
  }

  lemma BitOfThree(i: nat)
    ensures BitAt(3, i) == if i < 2 then 1 else 0
  {
    assert Pow2(2) == 4;
    BitOfOnes(2, i);
  }

  lemma BitOfCode(c: nat, i: nat)
    requires c < 4
    ensures BitAt(c, i) == if i == 0 then c % 2 else if i == 1 then c / 2 else 0
  {
    if i >= 2 {
      BitOfZero(i - 2);
      assert c / 2 / 2 == 0;
    }
  }

  lemma BitOfMask(slot: Slot, i: nat)
    requires i < 64
    ensures BitAt(Dr7Mask(slot), i) == if InSlot(slot, i) then 1 else 0
  {
    hide BitAt, Shl, Or64;
    var rw, len, en := Shl(3, RwShift(slot)), Shl(3, LenShift(slot)), Shl(3, EnableBit(slot));
    BitOfOr64(rw, len, i);
    BitOfOr64(Or64(rw, len), en, i);
    ShiftedThree(RwShift(slot), i);
    ShiftedThree(LenShift(slot), i);
    ShiftedThree(EnableBit(slot), i);
  }

  lemma ShiftedThree(s: nat, i: nat)
    requires i < 64
    ensures BitAt(Shl(3, s), i) == if s <= i < s + 2 then 1 else 0
  {
    hide BitAt, Shl;
    BitOfShl(3, s, i);
    if i >= s {
      BitOfThree(i - s);
    }
  }

  lemma BitOfClear(dr7: Word, slot: Slot, i: nat)
    requires i < 64
    ensures BitAt(Dr7ClearSlot(dr7, slot), i) ==
      if i == 2 * slot || i == 2 * slot + 1 || 16 + 4 * slot <= i < 20 + 4 * slot then 0 else BitAt(dr7, i)
  {
    hide BitAt, Dr7Mask, And64, Not64;
    BitOfAnd64(dr7, Not64(Dr7Mask(slot)), i);
    BitOfNot64(Dr7Mask(slot), i);
    BitOfMask(slot, i);
  }

  lemma ShiftedCode(c: nat, s: nat, i: nat)
    requires c < 4 && i < 64
    ensures BitAt(Shl(c, s), i) == if i == s then c % 2 else if i == s + 1 then c / 2 else 0
  {
    hide BitAt, Shl;
    BitOfShl(c, s, i);
    if i >= s {
      BitOfCode(c, i - s);
    }
  }

  /** Every bit of DR7 after setting a slot. */
  lemma BitOfSet(dr7: Word, slot: Slot, cond: WatchCondition, len: WatchLen, i: nat)
    requires i < 64
    ensures BitAt(Dr7SetSlot(dr7, slot, cond, len), i) ==
      if i == 2 * slot then 1
      else if i == 2 * slot + 1 then 0
      else if i == 16 + 4 * slot then cond.Code() % 2
      else if i == 17 + 4 * slot then cond.Code() / 2
      else if i == 18 + 4 * slot then len.Code() % 2
      else if i == 19 + 4 * slot then len.Code() / 2
      else BitAt(dr7, i)
  {
    hide BitAt, Shl, Or64, Dr7ClearSlot;
    var clear, en := Dr7ClearSlot(dr7, slot), Shl(1, EnableBit(slot));
    var rw, ln := Shl(cond.Code(), RwShift(slot)), Shl(len.Code(), LenShift(slot));
    BitOfClear(dr7, slot, i);
    ShiftedCode(1, EnableBit(slot), i);
    ShiftedCode(cond.Code(), RwShift(slot), i);
    ShiftedCode(len.Code(), LenShift(slot), i);
    BitOfOr64(clear, en, i);
    BitOfOr64(Or64(clear, en), rw, i);
    BitOfOr64(Or64(Or64(clear, en), rw), ln, i);
  }

  /** The bytes a LEN field stands for: 00, 01, 11 and 10 are one, two, four and eight. */
  lemma LengthsRead(f: nat)
    requires f < 4
    ensures LenOf(f).AsBytes() == if f == 3 then 4 else if f == 2 then 8 else f + 1
    ensures LenOf(f).Code() == f && CondOf(f).Code() == f
  {
  }

  /** The set slot reads back what was set. */
  lemma DecodeSet(dr7: Word, slot: Slot, cond: WatchCondition, len: WatchLen)
    ensures Decode(Dr7SetSlot(dr7, slot, cond, len), slot) == On(cond, len)
  {
    hide BitAt, Dr7SetSlot;
    BitOfSet(dr7, slot, cond, len, 2 * slot);
    BitOfSet(dr7, slot, cond, len, 16 + 4 * slot);
    BitOfSet(dr7, slot, cond, len, 17 + 4 * slot);
    BitOfSet(dr7, slot, cond, len, 18 + 4 * slot);
    BitOfSet(dr7, slot, cond, len, 19 + 4 * slot);
  }

  /** Two values with the same bits in a slot read the same there. */
  lemma DecodeDepends(a: Word, b: Word, slot: Slot)
    requires forall i :: InSlot(slot, i) ==> BitAt(a, i) == BitAt(b, i)
    ensures Decode(a, slot) == Decode(b, slot)
  {
    hide BitAt;
    assert InSlot(slot, 2 * slot);
    assert InSlot(slot, 16 + 4 * slot) && InSlot(slot, 17 + 4 * slot);
    assert InSlot(slot, 18 + 4 * slot) && InSlot(slot, 19 + 4 * slot);
  }

  /** Any slot after one is set or cleared. */
  lemma DecodeAfter(dr7: Word, slot: Slot, other: Slot, cond: WatchCondition, len: WatchLen)
    ensures Decode(Dr7SetSlot(dr7, slot, cond, len), other)
         == if other == slot then On(cond, len) else Decode(dr7, other)
    ensures Decode(Dr7ClearSlot(dr7, slot), other) == if other == slot then Off else Decode(dr7, other)
  {
    hide BitAt, Dr7SetSlot, Dr7ClearSlot, Decode;
    var s, c := Dr7SetSlot(dr7, slot, cond, len), Dr7ClearSlot(dr7, slot);
    if other == slot {
      DecodeSet(dr7, slot, cond, len);
      ClearedIsOff(dr7, slot);
    } else {
      forall i | InSlot(other, i)
        ensures BitAt(s, i) == BitAt(dr7, i) == BitAt(c, i)
      {
        BitOfSet(dr7, slot, cond, len, i);
        BitOfClear(dr7, slot, i);
      }
      DecodeDepends(s, dr7, other);
      DecodeDepends(c, dr7, other);
    }
  }

  lemma ClearedIsOff(dr7: Word, slot: Slot)
    ensures Decode(Dr7ClearSlot(dr7, slot), slot) == Off
  {
    hide BitAt, Dr7ClearSlot;
    BitOfClear(dr7, slot, 2 * slot);
  }

  // ---------- one thread's x86_64 registers over any history

  datatype X86Regs = X86Regs(dr: seq<Word>, dr7: Word)

  datatype WatchOp = SetWatch(slot: Slot, addr: Word, cond: WatchCondition, len: WatchLen) | ClearWatch(slot: Slot)

  function Apply(r: X86Regs, op: WatchOp): (r': X86Regs)
    requires |r.dr| == 4
    ensures |r'.dr| == 4
  {
    match op
    case SetWatch(slot, addr, cond, len) => X86Regs(r.dr[slot := addr], Dr7SetSlot(r.dr7, slot, cond, len))
    case ClearWatch(slot) => X86Regs(r.dr[slot := 0], Dr7ClearSlot(r.dr7, slot))
  }

  function ApplyAll(r: X86Regs, ops: seq<WatchOp>): (r': X86Regs)
    requires |r.dr| == 4
    ensures |r'.dr| == 4
    decreases |ops|
  {
    if ops == [] then r else ApplyAll(Apply(r, ops[0]), ops[1..])
  }

  /** The slot table the debugger keeps: each slot's last word. */
  datatype Entry = Entry(addr: Word, watching: Watching)

  function TableAfter(table: seq<Entry>, op: WatchOp): (t: seq<Entry>)
    requires |table| == 4
    ensures |t| == 4
  {
    match op
    case SetWatch(slot, addr, cond, len) => table[slot := Entry(addr, On(cond, len))]
    case ClearWatch(slot) => table[slot := Entry(0, Off)]
  }

  function TableAfterAll(table: seq<Entry>, ops: seq<WatchOp>): (t: seq<Entry>)
    requires |table| == 4
    ensures |t| == 4
    decreases |ops|
  {
    if ops == [] then table else TableAfterAll(TableAfter(table, ops[0]), ops[1..])
  }

  ghost predicate ReadsAs(r: X86Regs, table: seq<Entry>)
    requires |r.dr| == 4 && |table| == 4
  {
    forall s: Slot :: Entry(r.dr[s], Decode(r.dr7, s)) == table[s]
  }

  /** The bits that belong to no slot. */
  predicate Outside(i: nat) {
    forall s: Slot :: !InSlot(s, i)
  }

  ghost predicate SameOutside(a: Word, b: Word) {
    forall i :: 0 <= i < 64 && Outside(i) ==> BitAt(a, i) == BitAt(b, i)
  }

  lemma ApplyReads(r: X86Regs, table: seq<Entry>, op: WatchOp)
    requires |r.dr| == 4 && |table| == 4 && ReadsAs(r, table)
    ensures ReadsAs(Apply(r, op), TableAfter(table, op))
    ensures SameOutside(Apply(r, op).dr7, r.dr7)
  {
    hide BitAt, Decode, Dr7SetSlot, Dr7ClearSlot, InSlot;
    var cond, len := if op.SetWatch? then op.cond else Write, if op.SetWatch? then op.len else Byte1;
    var r', table' := Apply(r, op), TableAfter(table, op);
    forall s: Slot
      ensures Entry(r'.dr[s], Decode(r'.dr7, s)) == table'[s]
    {
      DecodeAfter(r.dr7, op.slot, s, cond, len);
    }
    forall i | 0 <= i < 64 && Outside(i)
      ensures BitAt(r'.dr7, i) == BitAt(r.dr7, i)
    {
      assert !InSlot(op.slot, i);
      UntouchedOutside(r.dr7, op.slot, cond, len, i);
    }
  }

  lemma UntouchedOutside(dr7: Word, slot: Slot, cond: WatchCondition, len: WatchLen, i: nat)
    requires i < 64 && !InSlot(slot, i)
    ensures BitAt(Dr7SetSlot(dr7, slot, cond, len), i) == BitAt(dr7, i)
    ensures BitAt(Dr7ClearSlot(dr7, slot), i) == BitAt(dr7, i)
  {
    hide BitAt, Dr7SetSlot, Dr7ClearSlot;
    BitOfSet(dr7, slot, cond, len, i);
    BitOfClear(dr7, slot, i);
  }

  /** Over any history of sets and clears DR7 and DR0-DR3 decode to exactly the slot
      table, and no bit outside the slots has changed. */
  lemma {:induction false} HistoryDecodes(r: X86Regs, table: seq<Entry>, ops: seq<WatchOp>)
    requires |r.dr| == 4 && |table| == 4 && ReadsAs(r, table)
    ensures ReadsAs(ApplyAll(r, ops), TableAfterAll(table, ops))
    ensures SameOutside(ApplyAll(r, ops).dr7, r.dr7)
    decreases |ops|
  {
    hide BitAt, ReadsAs, Outside, Apply, TableAfter;
    if ops != [] {
      ApplyReads(r, table, ops[0]);
      HistoryDecodes(Apply(r, ops[0]), TableAfter(table, ops[0]), ops[1..]);
    }
  }

  // ---------- ARM64 watchpoint values

  function Bas(size: nat, offset: nat): Word
    requires size <= 8
  {
    assert Pow2(size) > 0;
    And64(Shl(Pow2(size) - 1, offset), 0xff)
  }

  function WcrEncode(addr: Word, cond: WatchCondition, len: WatchLen): (Word, Word) {
    hide Bas, Or64, Shl;
    var bas := Bas(len.AsBytes(), addr % 8);
    var lsc := if cond == Write then 2 else 3;
    (addr - addr % 8, Or64(Or64(Or64(1, Shl(2, 1)), Shl(lsc, 3)), Shl(bas, 5)))
  }

  /** Does the pair watch byte `b`: enabled, its 8-byte group, its bit in the mask? */
  predicate WatchesByte(wvr: Word, wcr: Word, b: Word) {
    BitAt(wcr, 0) == 1 && wvr == b - b % 8 && BitAt(wcr, 5 + b % 8) == 1
  }

  predicate WatchesLoads(wcr: Word) {
    BitAt(wcr, 3) == 1
  }

  predicate WatchesStores(wcr: Word) {
    BitAt(wcr, 4) == 1
  }

  lemma BitOfFF(i: nat)
    ensures BitAt(0xff, i) == if i < 8 then 1 else 0
  {
    assert Pow2(8) == 256;
    BitOfOnes(8, i);
  }

  lemma BitOfBas(size: nat, offset: nat, k: nat)
    requires size <= 8 && k < 64
    ensures BitAt(Bas(size, offset), k) == if offset <= k < offset + size && k < 8 then 1 else 0
  {
    hide BitAt, Shl, Pow2, And64;
    BitOfAnd64(Shl(Pow2(size) - 1, offset), 0xff, k);
    BitOfFF(k);
    BitOfShl(Pow2(size) - 1, offset, k);
    if k >= offset {
      BitOfOnes(size, k - offset);
    }
  }

  lemma BitOfWcr(addr: Word, cond: WatchCondition, len: WatchLen, i: nat)
    requires i < 64
    ensures BitAt(WcrEncode(addr, cond, len).1, i) ==
      if i == 0 || i == 2 || i == 4 then 1
      else if i == 1 then 0
      else if i == 3 then (if cond == Write then 0 else 1)
      else BitAt(Bas(len.AsBytes(), addr % 8), i - 5)
  {
    hide BitAt, Shl, Or64, Bas;
    var bas := Bas(len.AsBytes(), addr % 8);
    var lsc := if cond == Write then 2 else 3;
    var pac, l, b := Shl(2, 1), Shl(lsc, 3), Shl(bas, 5);
    BitOfOr64(1, pac, i);
    BitOfOr64(Or64(1, pac), l, i);
    BitOfOr64(Or64(Or64(1, pac), l), b, i);
    BitOfCode(1, i);
    ShiftedCode(2, 1, i);
    ShiftedCode(lsc, 3, i);
    BitOfShl(bas, 5, i);
  }

  /** An encoded watchpoint watches exactly the requested bytes that lie in the 8-byte
      group of its address. */
  lemma WatchedBytes(addr: Word, cond: WatchCondition, len: WatchLen, b: Word)
    ensures var (wvr, wcr) := WcrEncode(addr, cond, len);
      WatchesByte(wvr, wcr, b) <==> addr <= b < addr + len.AsBytes() && b / 8 == addr / 8
  {
    hide BitAt, Bas, WcrEncode;
    var (wvr, wcr) := WcrEncode(addr, cond, len);
    assert wvr == addr - addr % 8 by { WvrOf(addr, cond, len); }
    BitOfWcr(addr, cond, len, 0);
    BitOfWcr(addr, cond, len, 5 + b % 8);
    BitOfBas(len.AsBytes(), addr % 8, b % 8);
  }

  lemma WvrOf(addr: Word, cond: WatchCondition, len: WatchLen)
    ensures WcrEncode(addr, cond, len).0 == addr - addr % 8
  {
    hide Bas, Or64, Shl;
  }

  /** So it watches all of them exactly when they do not cross an 8-byte boundary. */
  lemma WatchesAllIff(addr: Word, cond: WatchCondition, len: WatchLen)
    ensures var (wvr, wcr) := WcrEncode(addr, cond, len);
      (forall b: Word :: addr <= b < addr + len.AsBytes() ==> WatchesByte(wvr, wcr, b))
      <==> addr % 8 + len.AsBytes() <= 8 || addr + 8 - addr % 8 >= WORD
  {
    hide WcrEncode, WatchesByte;
    var (wvr, wcr) := WcrEncode(addr, cond, len);
    forall b: Word
      ensures WatchesByte(wvr, wcr, b) <==> addr <= b < addr + len.AsBytes() && b / 8 == addr / 8
    {
      WatchedBytes(addr, cond, len, b);
    }
    var next := addr + 8 - addr % 8;
    if addr % 8 + len.AsBytes() > 8 && next < WORD {
      var b: Word := next;
      assert addr <= b < addr + len.AsBytes() && !WatchesByte(wvr, wcr, b);
    }
  }

  /** Stores are always watched; loads exactly unless the condition is `Write`. */
  lemma WatchedAccesses(addr: Word, cond: WatchCondition, len: WatchLen)
    ensures WatchesStores(WcrEncode(addr, cond, len).1)
    ensures WatchesLoads(WcrEncode(addr, cond, len).1) <==> cond != Write
  {
    hide BitAt, WcrEncode;
    BitOfWcr(addr, cond, len, 3);
    BitOfWcr(addr, cond, len, 4);
  }
}
