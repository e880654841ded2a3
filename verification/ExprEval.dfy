/** Evaluation of expressions over 64-bit wrap-around arithmetic. */
module ExprEval {
  import opened Words
  import opened Bits
  import opened ExprAst

  datatype EvalError =
    | ImageBaseUnknown | UnknownRegister | NotAvailable | Unresolved | ReadFailed
    | NotAVariable | NotEnoughBytes | BadOperator | DivisionByZero | UnknownType

  datatype Result<+T> = Ok(value: T) | Err(error: EvalError) {
    predicate IsFailure() { Err? }
    function PropagateFailure<U>(): Result<U>
      requires Err?
    {
      Err(error)
    }
    function Extract(): T
      requires Ok?
    {
      value
    }
  }

  /** What a variable's type says: its name, whether it is a pointer, and to what. */
  datatype VarType = VarType(name: string, isPointer: bool, pointee: string)

  /** The callbacks of an evaluation; each may be missing, and each may fail. */
  datatype Ctx = Ctx(
    regs: map<string, Word>,
    base: Option<Word>,
    readMem: Option<(Word, nat) -> Option<seq<Byte>>>,
    resolveVar: Option<string -> Option<(Word, Byte)>>,
    addrOfVar: Option<string -> Option<Word>>,
    resolveField: Option<(string, string) -> Option<(Word, Byte)>>,
    typeOfVar: Option<string -> Option<VarType>>)

  function Need<T>(o: Option<T>, e: EvalError): Result<T> {
    match o
    case Some(v) => Ok(v)
    case None => Err(e)
  }

  /** The number of bytes from one to eight that is nearest to the size. */
  function Clamp(size: nat): (n: nat)
    ensures 1 <= n <= 8 && (n == 1 || n <= size) && (n == 8 || n >= size)
  {
    if size < 1 then 1 else if size > 8 then 8 else size
  }

  /** The first `n` bytes, or fewer if fewer came back, padded with zeros. */
  function Padded(bytes: seq<Byte>, n: nat): Word
    requires n <= 8
  {
    var b := if |bytes| < n then bytes else bytes[..n];
    FromLeBound(b);
    assert Pow256(|b|) <= WORD by { Pow256Mono(|b|, 8); assert Pow256(8) == WORD; }
    FromLe(b)
  }

  lemma {:induction false} Pow256Mono(a: nat, b: nat)
    requires a <= b
    ensures Pow256(a) <= Pow256(b)
    decreases b
  {
    if a < b {
      Pow256Mono(a, b - 1);
    }
  }

  function WordOp(op: Op, x: Word, y: Word): Result<Word> {
    match op
    case Add => Ok((x + y) % WORD)
    case Sub => Ok((x - y) % WORD)
    case Mul => Ok((x * y) % WORD)
    case Div => if y == 0 then Err(DivisionByZero) else Ok(Quotient(x, y))
    case Mod => if y == 0 then Err(DivisionByZero) else Ok(x % y)
    case And => Ok(WordBitOp(BitAnd, x, y))
    case Or => Ok(WordBitOp(BitOr, x, y))
    case Xor => Ok(WordBitOp(BitXor, x, y))
    case Shl => Ok((x * Pow2(y % 64)) % WORD)
    case Shr => Ok(Quotient(x, Pow2(y % 64)))
    case _ => Err(BadOperator)
  }

  function Quotient(x: Word, y: nat): Word
    requires y > 0
  {
    QuotientBound(x, y);
    x / y
  }

  lemma QuotientBound(x: nat, y: nat)
    requires y > 0
    ensures x / y <= x
  {
    var q := x / y;
    assert x == y * q + x % y;
    MulGrows(y, q);
  }

  lemma MulGrows(y: nat, q: int)
    requires y > 0
    ensures q >= 0 ==> y * q >= q
    ensures q < 0 ==> y * q < 0
  {
    if q >= 0 {
      assert (y - 1) * q >= 0;
      assert y * q == (y - 1) * q + q;
    }
  }

  function WordBitOp(op: BitOp, x: Word, y: Word): Word {
    Pow2Word();
    WordBits(op, 64, x, y)
  }

  function Eval(e: Expr, ctx: Ctx): Result<Word>
    decreases e, 0
  {
    match e
    case Number(n) => Ok(n)
    case Register(name) =>
      if name == "base" then Need(ctx.base, ImageBaseUnknown)
      else if name in ctx.regs then Ok(ctx.regs[name]) else Err(UnknownRegister)
    case Variable(name) =>
      var resolve :- Need(ctx.resolveVar, NotAvailable);
      var (addr, size) :- Need(resolve(name), Unresolved);
      var read :- Need(ctx.readMem, NotAvailable);
      var n := Clamp(size);
      var bytes :- Need(read(addr, n), ReadFailed);
      if bytes == [] then Err(ReadFailed) else Ok(Padded(bytes, n))
    case Unary(op, inner) =>
      if op.AddrOf? then
        if inner.Variable? then
          var addrOf :- Need(ctx.addrOfVar, NotAvailable);
          Need(addrOf(inner.name), Unresolved)
        else Err(NotAVariable)
      else
        var v :- Eval(inner, ctx);
        (match op
         case Neg => Ok((0 - v as int) % WORD)
         case Not => Ok(WORD - 1 - v)
         case Deref =>
           var read :- Need(ctx.readMem, NotAvailable);
           var bytes :- Need(read(v, 8), ReadFailed);
           if |bytes| < 8 then Err(NotEnoughBytes) else Ok(Padded(bytes, 8))
         case _ => Err(BadOperator))
    case Binary(op, l, r) =>
      var lv :- Eval(l, ctx);
      var rv :- Eval(r, ctx);
      WordOp(op, lv, rv)
    case Member(b, field) => EvalMember(b, field, false, ctx)
    case PtrMember(b, field) => EvalMember(b, field, true, ctx)
  }

  /** `base.field` and `base->field`; only variables have a known type. */
  function EvalMember(b: Expr, field: string, isPtr: bool, ctx: Ctx): Result<Word>
    decreases b, 1
  {
    var resolveField :- Need(ctx.resolveField, NotAvailable);
    var baseAddr :-
      if isPtr || !b.Variable? then Eval(b, ctx)
      else
        (var addrOf :- Need(ctx.addrOfVar, NotAvailable);
         Need(addrOf(b.name), Unresolved));
    if !b.Variable? then Err(UnknownType)
    else
      var typeOf :- Need(ctx.typeOfVar, NotAvailable);
      var ty :- Need(typeOf(b.name), Unresolved);
      var tyName := if isPtr || ty.isPointer then ty.pointee else ty.name;
      var (offset, size) :- Need(resolveField(tyName, field), Unresolved);
      var read :- Need(ctx.readMem, NotAvailable);
      var n := Clamp(size);
      var bytes :- Need(read((baseAddr + offset) % WORD, n), ReadFailed);
      Ok(Padded(bytes, n))
  }

  // ---------- what the numbers mean

  /** Expressions over numbers and registers with the operations of a ring of bits. */
  predicate IsRing(e: Expr, ctx: Ctx) {
    match e
    case Number(_) => true
    case Register(name) => Eval(e, ctx).Ok?
    case Unary(op, e1) => (op.Neg? || op.Not?) && IsRing(e1, ctx)
    case Binary(op, l, r) =>
      IsRingOp(op) && IsRing(l, ctx) && IsRing(r, ctx)
    case _ => false
  }

  /** Their value as unbounded integers in infinite two's complement. */
  function IntEval(e: Expr, ctx: Ctx): int
    requires IsRing(e, ctx)
  {
    match e
    case Number(n) => n
    case Register(_) => Eval(e, ctx).value
    case Unary(op, e1) => if op.Neg? then -IntEval(e1, ctx) else -IntEval(e1, ctx) - 1
    case Binary(op, l, r) =>
      IntOp(op, IntEval(l, ctx), IntEval(r, ctx))
  }

  predicate IsRingOp(op: Op) {
    op.Add? || op.Sub? || op.Mul? || op.And? || op.Or? || op.Xor?
  }

  function IntOp(op: Op, x: int, y: int): int
    requires IsRingOp(op)
  {
    match op
    case Add => x + y
    case Sub => x - y
    case Mul => x * y
    case And => IntBits(BitAnd, x, y)
    case Or => IntBits(BitOr, x, y)
    case Xor => IntBits(BitXor, x, y)
  }

  /** 64-bit operations are the integer operations modulo 2^64. */
  lemma OpReduces(op: Op, x: int, y: int)
    requires IsRingOp(op)
    ensures WordOp(op, x % WORD, y % WORD) == Ok(IntOp(op, x, y) % WORD)
  {
    Pow2Word();
    match op
    case Add => ReduceSum(x, y, WORD);
    case Sub => ReduceDifference(x, y, WORD);
    case Mul => ReduceProduct(x, y, WORD);
    case And => BitsReduce(BitAnd, 64, x, y);
    case Or => BitsReduce(BitOr, 64, x, y);
    case Xor => BitsReduce(BitXor, 64, x, y);
  }

  lemma NegationsReduce(v: int)
    ensures (0 - v % WORD) % WORD == (-v) % WORD && WORD - 1 - v % WORD == (-v - 1) % WORD
  {
    ReduceDifference(0, v, WORD);
    ReduceDifference(-1, v, WORD);
  }

  /** 64-bit evaluation is integer evaluation modulo 2^64, whatever overflows on the way. */
  lemma {:induction false} EvalIsIntMod(e: Expr, ctx: Ctx)
    requires IsRing(e, ctx)
    ensures Eval(e, ctx) == Ok(IntEval(e, ctx) % WORD)
  {
    hide WordOp, IntOp, EvalMember, Padded, FromLe;
    match e
    case Unary(op, e1) =>
      EvalIsIntMod(e1, ctx);
      NegationsReduce(IntEval(e1, ctx));
    case Binary(op, l, r) =>
      EvalIsIntMod(l, ctx);
      EvalIsIntMod(r, ctx);
      OpReduces(op, IntEval(l, ctx), IntEval(r, ctx));
    case _ =>
  }

  lemma {:induction false} FromLePrefix(b: seq<Byte>, n: nat)
    requires n <= |b|
    ensures FromLe(b) % Pow256(n) == FromLe(b[..n])
    decreases n
  {
    FromLeBound(b[..n]);
    if n > 0 {
      FromLePrefix(b[1..], n - 1);
      assert b[..n][0] == b[0] && b[..n][1..] == b[1..][..n - 1];
      LowDigit(b[0], FromLe(b[1..]), Pow256(n - 1), FromLe(b[..n]));
    }
  }

  /** One more base-256 digit in front. */
  lemma LowDigit(digit: Byte, rest: nat, p: nat, low: nat)
    requires p > 0 && low == digit + 256 * (rest % p) && low < 256 * p
    ensures (digit + 256 * rest) % (256 * p) == low
  {
    var q := rest / p;
    assert rest == p * q + rest % p;
    MulSwap(256, q, p);
    ModUnique(digit + 256 * rest, 256 * p, q, low);
  }

  /** The context knows variable `x` consistently: one address, and eight readable bytes
      there of which shorter reads are prefixes. */
  ghost predicate Readable(ctx: Ctx, x: string, a: Word, size: Byte, mem: seq<Byte>) {
    && ctx.resolveVar.Some? && ctx.resolveVar.value(x) == Some((a, size))
    && ctx.addrOfVar.Some? && ctx.addrOfVar.value(x) == Some(a)
    && |mem| == 8 && ctx.readMem.Some?
    && forall n :: 1 <= n <= 8 ==> ctx.readMem.value(a, n) == Some(mem[..n])
  }

  /** Taking the address and following it back gives the variable, up to the bytes
      beyond its size that `*` always reads. */
  lemma DerefOfAddress(ctx: Ctx, x: string, a: Word, size: Byte, mem: seq<Byte>)
    requires Readable(ctx, x, a, size, mem)
    ensures var v, w := Eval(Variable(x), ctx), Eval(Unary(Deref, Unary(AddrOf, Variable(x))), ctx);
      && v.Ok? && w.Ok? && w.value % Pow256(Clamp(size)) == v.value
      && (size >= 8 ==> w == v)
  {
    var n := Clamp(size);
    assert mem[..8] == mem && mem[..n][..n] == mem[..n];
    FromLePrefix(mem, n);
  }

  // ---------- the operators that are not of the ring

  /** `/` and `%` are quotient and remainder, and an error exactly for a zero divisor. */
  lemma DivMod(x: Word, y: Word)
    ensures WordOp(Div, x, y) == Err(DivisionByZero) <==> y == 0
    ensures WordOp(Mod, x, y) == Err(DivisionByZero) <==> y == 0
    ensures y > 0 ==>
      var q, r := WordOp(Div, x, y), WordOp(Mod, x, y);
      && q.Ok? && r.Ok? && r.value < y && x == q.value * y + r.value
      && q.value * y <= x < q.value * y + y
  {
    if y > 0 {
      assert x == y * (x / y) + x % y;
      MulSwap(1, x / y, y);
    }
  }

  lemma {:induction false} BitOfQuotient(x: Word, s: nat, i: nat)
    ensures BitAt(Quotient(x, Pow2(s)), i) == BitAt(x, i + s)
    decreases s
  {
    if s > 0 {
      hide Quotient, BitAt;
      HalfQuotient(x, s);
      BitOfQuotient(x / 2, s - 1, i);
      BitOfHalf(x, i + s);
    }
  }

  lemma BitOfHalf(x: nat, i: nat)
    requires i > 0
    ensures BitAt(x, i) == BitAt(x / 2, i - 1)
  {
  }

  lemma HalfQuotient(x: Word, s: nat)
    requires s > 0
    ensures Quotient(x, Pow2(s)) == Quotient(x / 2, Pow2(s - 1))
  {
    var p := Pow2(s - 1);
    var q := (x / 2) / p;
    assert x / 2 == p * q + (x / 2) % p;
    assert x == 2 * (x / 2) + x % 2;
    assert Pow2(s) == 2 * p;
    MulSwap(2, p, q);
    QuotientUnique(x, 2 * p, q, 2 * ((x / 2) % p) + x % 2);
  }

  lemma QuotientUnique(x: nat, m: nat, q: int, r: nat)
    requires m > 0 && r < m && x == m * q + r
    ensures x / m == q
  {
    var d := x / m - q;
    assert x == m * (x / m) + x % m;
    assert d * m == r - x % m by {
      assert d * m == m * (x / m) - m * q;
    }
    MulFar(d, m);
  }

  /** Every bit of a shift: the count is taken modulo 64, and zeros come in. */
  lemma BitOfShift64(x: Word, y: Word, i: nat)
    requires i < 64
    ensures var s := y % 64;
      && WordOp(Shl, x, y).Ok? && WordOp(Shr, x, y).Ok?
      && BitAt(WordOp(Shl, x, y).value, i) == (if i < s then 0 else BitAt(x, i - s))
      && BitAt(WordOp(Shr, x, y).value, i) == (if i + s < 64 then BitAt(x, i + s) else 0)
  {
    var s := y % 64;
    Pow2Word();
    hide Pow2, BitAt, Quotient;
    BitOfLow(x * Pow2(s), 64, i);
    BitOfShift(x, s, i);
    BitOfQuotient(x, s, i);
    if i + s >= 64 {
      HighBits(x, 64, i + s);
    }
  }

  /** Every bit of `&`, `|` and `^`: both are one, one of them is, they differ. */
  lemma BitOfBitwise(x: Word, y: Word, i: nat)
    requires i < 64
    ensures WordOp(And, x, y).Ok? && WordOp(Or, x, y).Ok? && WordOp(Xor, x, y).Ok?
    ensures BitAt(WordOp(And, x, y).value, i) == 1 <==> BitAt(x, i) == 1 && BitAt(y, i) == 1
    ensures BitAt(WordOp(Or, x, y).value, i) == 1 <==> BitAt(x, i) == 1 || BitAt(y, i) == 1
    ensures BitAt(WordOp(Xor, x, y).value, i) == 1 <==> BitAt(x, i) != BitAt(y, i)
  {
    hide Pow2, WordBits, BitAt;
    BitOfOp(BitAnd, 64, x, y, i);
    BitOfOp(BitOr, 64, x, y, i);
    BitOfOp(BitXor, 64, x, y, i);
  }

  // ---------- members

  /** The context knows a field: where it is in the type, and its bytes at `a`. */
  ghost predicate HasField(ctx: Ctx, ty: string, field: string, offset: Word, size: Byte, a: Word, mem: seq<Byte>) {
    && ctx.resolveField.Some? && ctx.resolveField.value(ty, field) == Some((offset, size))
    && ctx.readMem.Some? && ctx.readMem.value((a + offset) % WORD, Clamp(size)) == Some(mem)
  }

  /** `v.field` reads the field's bytes at its offset from the address of `v`, in the type of
      `v`; for a pointer in the type it points to, though still from its own address. */
  lemma MemberReads(ctx: Ctx, v: string, ty: VarType, field: string, offset: Word, size: Byte, a: Word, mem: seq<Byte>)
    requires ctx.addrOfVar.Some? && ctx.addrOfVar.value(v) == Some(a)
    requires ctx.typeOfVar.Some? && ctx.typeOfVar.value(v) == Some(ty)
    requires HasField(ctx, if ty.isPointer then ty.pointee else ty.name, field, offset, size, a, mem)
    ensures Eval(Member(Variable(v), field), ctx).Ok?
    ensures Eval(Member(Variable(v), field), ctx).value
         == FromLe(if |mem| <= Clamp(size) then mem else mem[..Clamp(size)])
  {
    assert |mem| == Clamp(size) ==> mem[..Clamp(size)] == mem;
  }

  /** `p->field` for a pointer to such a variable is `v.field`, whatever else differs. */
  lemma ArrowIsMember(ctx: Ctx, p: string, v: string, pty: VarType, ty: VarType, field: string, a: Word)
    requires Eval(Variable(p), ctx) == Ok(a) && ctx.addrOfVar.Some? && ctx.addrOfVar.value(v) == Some(a)
    requires ctx.typeOfVar.Some? && ctx.typeOfVar.value(p) == Some(pty) && ctx.typeOfVar.value(v) == Some(ty)
    requires pty.isPointer && pty.pointee == ty.name && !ty.isPointer
    ensures Eval(PtrMember(Variable(p), field), ctx) == Eval(Member(Variable(v), field), ctx)
  {
  }

  /** `base` is the image base, any other register name the register. */
  lemma RegistersRead(ctx: Ctx, name: string)
    ensures name == "base" ==> Eval(Register(name), ctx) == Need(ctx.base, ImageBaseUnknown)
    ensures name != "base" && name in ctx.regs ==> Eval(Register(name), ctx) == Ok(ctx.regs[name])
    ensures name != "base" && name !in ctx.regs ==> Eval(Register(name), ctx) == Err(UnknownRegister)
  {
  }
}
