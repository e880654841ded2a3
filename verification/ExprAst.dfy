/** Expressions of the `p` and `set` commands. */
module ExprAst {
  import opened Words

  datatype Op = Add | Sub | Mul | Div | Mod | And | Or | Xor | Shl | Shr | Not | Neg | Deref | AddrOf

  datatype Expr =
    | Number(n: Word)
    | Register(name: string)
    | Variable(name: string)
    | Unary(op: Op, e: Expr)
    | Binary(op: Op, l: Expr, r: Expr)
    | Member(base: Expr, field: string)
    | PtrMember(base: Expr, field: string)

  predicate IsUnaryOp(op: Op) {
    op.Not? || op.Neg? || op.Deref? || op.AddrOf?
  }

  /** The expressions the grammar can produce: operators where they belong. */
  predicate WellFormed(e: Expr) {
    match e
    case Unary(op, e1) => IsUnaryOp(op) && WellFormed(e1)
    case Binary(op, l, r) => !IsUnaryOp(op) && WellFormed(l) && WellFormed(r)
    case Member(b, _) => WellFormed(b)
    case PtrMember(b, _) => WellFormed(b)
    case _ => true
  }
}
