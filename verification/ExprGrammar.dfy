/** The layered expression grammar. A parse tree records every production that consumes
    tokens; the parser below is proved to find the one tree of a token sequence. */
module ExprGrammar {
  import opened Words
  import opened ExprAst

  datatype Sym =
    | Plus | Minus | Star | Slash | Percent | Amp | Pipe | Caret | Tilde
    | Less2 | Greater2 | Dot | Arrow | LParen | RParen

  datatype Tok = Punct(sym: Sym) | Num(n: Word) | Reg(name: string) | Ident(name: string)

  /** Parse trees. `Bin` and `Pre` carry the operator symbol, `Post` the `.` or `->`. */
  datatype Tree =
    | Bin(sym: Sym, l: Tree, r: Tree)
    | Pre(sym: Sym, e: Tree)
    | Post(e: Tree, sym: Sym, field: string)
    | Leaf(tok: Tok)
    | Paren(e: Tree)

  // ---------- the productions

  /** Nonterminals from the loosest to the tightest. */
  const OR: nat := 0
  const XOR: nat := 1
  const AND: nat := 2
  const SHIFT: nat := 3
  const ADD: nat := 4
  const MUL: nat := 5
  const UNARY: nat := 6
  const POSTFIX: nat := 7
  const PRIMARY: nat := 8

  /** The layer whose productions have this symbol between two operands. */
  function BinLevel(sym: Sym): Option<nat> {
    match sym
    case Pipe => Some(OR)
    case Caret => Some(XOR)
    case Amp => Some(AND)
    case Less2 => Some(SHIFT)
    case Greater2 => Some(SHIFT)
    case Plus => Some(ADD)
    case Minus => Some(ADD)
    case Star => Some(MUL)
    case Slash => Some(MUL)
    case Percent => Some(MUL)
    case _ => None
  }

  predicate IsPrefix(sym: Sym) {
    sym.Plus? || sym.Minus? || sym.Tilde? || sym.Star? || sym.Amp?
  }

  predicate IsPostfix(sym: Sym) {
    sym.Dot? || sym.Arrow?
  }

  /** `t` is derived from the nonterminal `level`; each layer also derives what the next
      one does. */
  predicate Derives(level: nat, t: Tree)
    decreases t
  {
    match t
    case Bin(sym, l, r) =>
      var own := BinLevel(sym);
      own.Some? && level <= own.value && Derives(own.value, l) && Derives(own.value + 1, r)
    case Pre(sym, e) => level <= UNARY && IsPrefix(sym) && Derives(UNARY, e)
    case Post(e, sym, _) => level <= POSTFIX && IsPostfix(sym) && Derives(POSTFIX, e)
    case Leaf(tok) => level <= PRIMARY && !tok.Punct?
    case Paren(e) => level <= PRIMARY && Derives(OR, e)
  }

  /** The token sequence of a tree. */
  function Yield(t: Tree): (toks: seq<Tok>)
    ensures toks != []
  {
    match t
    case Bin(sym, l, r) => Yield(l) + [Punct(sym)] + Yield(r)
    case Pre(sym, e) => [Punct(sym)] + Yield(e)
    case Post(e, sym, f) => Yield(e) + [Punct(sym), Ident(f)]
    case Leaf(tok) => [tok]
    case Paren(e) => [Punct(LParen)] + Yield(e) + [Punct(RParen)]
  }

  // ---------- a parser

  datatype Parsed = Fail | Got(tree: Tree, rest: seq<Tok>)

  /** One operand at `level`, then as many operators of the layer as follow. */
  function Parse(level: nat, toks: seq<Tok>): (p: Parsed)
    requires level <= PRIMARY
    ensures p.Got? ==> |p.rest| < |toks|
    decreases |toks|, PRIMARY - level, 1
  {
    if level < UNARY then
      match Parse(level + 1, toks)
      case Fail => Fail
      case Got(t, rest) => BinTail(level, t, rest)
    else if level == UNARY then
      if toks != [] && toks[0].Punct? && IsPrefix(toks[0].sym) then
        match Parse(UNARY, toks[1..])
        case Fail => Fail
        case Got(t, rest) => Got(Pre(toks[0].sym, t), rest)
      else Parse(POSTFIX, toks)
    else if level == POSTFIX then
      match Parse(PRIMARY, toks)
      case Fail => Fail
      case Got(t, rest) => PostTail(t, rest)
    else if toks == [] then Fail
    else if !toks[0].Punct? then Got(Leaf(toks[0]), toks[1..])
    else if toks[0].sym.LParen? then
      match Parse(OR, toks[1..])
      case Fail => Fail
      case Got(t, rest) =>
        if rest != [] && rest[0] == Punct(RParen) then Got(Paren(t), rest[1..]) else Fail
    else Fail
  }

  function BinTail(level: nat, left: Tree, toks: seq<Tok>): (p: Parsed)
    requires level < UNARY
    ensures p.Got? ==> |p.rest| <= |toks|
    decreases |toks|, PRIMARY - level, 0
  {
    if toks != [] && toks[0].Punct? && BinLevel(toks[0].sym) == Some(level) then
      match Parse(level + 1, toks[1..])
      case Fail => Fail
      case Got(t, rest) => BinTail(level, Bin(toks[0].sym, left, t), rest)
    else Got(left, toks)
  }

  function PostTail(e: Tree, toks: seq<Tok>): (p: Parsed)
    ensures p.Got? ==> |p.rest| <= |toks|
    decreases |toks|, 0, 0
  {
    if toks != [] && toks[0].Punct? && IsPostfix(toks[0].sym) then
      if |toks| > 1 && toks[1].Ident? then PostTail(Post(e, toks[0].sym, toks[1].name), toks[2..])
      else Fail
    else Got(e, toks)
  }

  function ParseAll(toks: seq<Tok>): Option<Tree> {
    match Parse(OR, toks)
    case Got(t, rest) => if rest == [] then Some(t) else None
    case Fail => None
  }

  // ---------- completeness

  /** The next token neither continues an operand of `level` nor belongs to a tighter
      layer than the one above it. */
  predicate Ends(level: nat, rest: seq<Tok>) {
    rest != [] && rest[0].Punct? ==>
      && !IsPostfix(rest[0].sym)
      && (BinLevel(rest[0].sym).Some? ==> BinLevel(rest[0].sym).value < level)
  }

  /** What may follow a tree of `level` when the parser leaves the rest to its tail. */
  predicate Follows(level: nat, rest: seq<Tok>) {
    level <= UNARY ==> Ends(if level < UNARY then level + 1 else UNARY, rest)
  }

  /** What `Parse` does at `level` once it has the tree `t`. */
  function Tail(level: nat, t: Tree, rest: seq<Tok>): Parsed
    requires level <= PRIMARY
  {
    if level < UNARY then BinTail(level, t, rest)
    else if level == POSTFIX then PostTail(t, rest)
    else Got(t, rest)
  }

  lemma {:induction false} FirstToken(t: Tree, rest: seq<Tok>)
    requires Derives(POSTFIX, t)
    ensures var tok := (Yield(t) + rest)[0]; tok.Punct? ==> tok.sym.LParen?
    decreases t
  {
    if t.Post? {
      FirstToken(t.e, [Punct(t.sym), Ident(t.field)]);
      assert Yield(t) == Yield(t.e) + [Punct(t.sym), Ident(t.field)];
      assert (Yield(t) + rest)[0] == Yield(t)[0];
    }
  }

  lemma {:induction false} ParseFindsBin(level: nat, t: Tree, rest: seq<Tok>)
    requires level < UNARY && t.Bin? && BinLevel(t.sym) == Some(level) && Derives(level, t)
    requires Follows(level, rest)
    ensures Parse(level, Yield(t) + rest) == BinTail(level, t, rest)
    decreases t, 0
  {
    var right := Yield(t.r) + rest;
    assert Yield(t) + rest == Yield(t.l) + ([Punct(t.sym)] + right);
    ParseFinds(level, t.l, [Punct(t.sym)] + right);
    ParseFinds(level + 1, t.r, rest);
    assert ([Punct(t.sym)] + right)[1..] == right;
  }

  lemma {:induction false} ParseFindsPost(t: Tree, rest: seq<Tok>)
    requires t.Post? && Derives(POSTFIX, t)
    ensures Parse(POSTFIX, Yield(t) + rest) == PostTail(t, rest)
    decreases t, 0
  {
    var after := [Punct(t.sym), Ident(t.field)] + rest;
    assert Yield(t) + rest == Yield(t.e) + after;
    ParseFinds(POSTFIX, t.e, after);
    assert after[2..] == rest;
  }

  lemma {:induction false} ParseFindsParen(t: Tree, rest: seq<Tok>)
    requires t.Paren? && Derives(PRIMARY, t)
    ensures Parse(PRIMARY, Yield(t) + rest) == Got(t, rest)
    decreases t, 0
  {
    var inner := Yield(t.e) + ([Punct(RParen)] + rest);
    assert Yield(t) + rest == [Punct(LParen)] + inner;
    ParseFinds(OR, t.e, [Punct(RParen)] + rest);
    assert ([Punct(LParen)] + inner)[1..] == inner && ([Punct(RParen)] + rest)[1..] == rest;
  }

  lemma {:induction false} ParseFindsUnary(t: Tree, rest: seq<Tok>)
    requires Derives(UNARY, t) && Follows(UNARY, rest)
    ensures Parse(UNARY, Yield(t) + rest) == Tail(UNARY, t, rest)
    decreases t, 2 + PRIMARY - UNARY, 0
  {
    if t.Pre? {
      assert (Yield(t) + rest)[1..] == Yield(t.e) + rest;
      ParseFinds(UNARY, t.e, rest);
    } else {
      FirstToken(t, rest);
      ParseFinds(POSTFIX, t, rest);
    }
  }

  /** The parser finds every derivable tree, whatever follows it. */
  lemma {:induction false} ParseFinds(level: nat, t: Tree, rest: seq<Tok>)
    requires level <= PRIMARY && Derives(level, t) && Follows(level, rest)
    ensures Parse(level, Yield(t) + rest) == Tail(level, t, rest)
    decreases t, 2 + PRIMARY - level, 1
  {
    if t.Bin? && BinLevel(t.sym) == Some(level) {
      ParseFindsBin(level, t, rest);
    } else if level < UNARY {
      ParseFinds(level + 1, t, rest);
    } else if level == UNARY {
      ParseFindsUnary(t, rest);
    } else if level == POSTFIX {
      if t.Post? {
        ParseFindsPost(t, rest);
      } else {
        ParseFinds(PRIMARY, t, rest);
      }
    } else if t.Paren? {
      ParseFindsParen(t, rest);
    } else {
      assert (Yield(t) + rest)[1..] == rest;
    }
  }

  /** Complete: the parser returns the tree of every sentence. */
  lemma ParseComplete(t: Tree)
    requires Derives(OR, t)
    ensures ParseAll(Yield(t)) == Some(t)
  {
    ParseFinds(OR, t, []);
    assert Yield(t) + [] == Yield(t);
  }

  /** The grammar is unambiguous: no token sequence has two trees. */
  lemma Unambiguous(t: Tree, t': Tree)
    requires Derives(OR, t) && Derives(OR, t') && Yield(t) == Yield(t')
    ensures t == t'
  {
    ParseComplete(t);
    ParseComplete(t');
  }

  // ---------- soundness

  lemma DerivesLooser(level: nat, level': nat, t: Tree)
    requires level' <= level && Derives(level, t)
    ensures Derives(level', t)
  {}

  lemma Regroup(left: seq<Tok>, op: Tok, right: seq<Tok>, rest: seq<Tok>)
    ensures (left + [op] + right) + rest == left + ([op] + (right + rest))
  {}

  lemma {:induction false} BinTailSound(level: nat, left: Tree, toks: seq<Tok>)
    requires level < UNARY && Derives(level, left)
    ensures var p := BinTail(level, left, toks);
      p.Got? ==> Derives(level, p.tree) && Yield(p.tree) + p.rest == Yield(left) + toks
    decreases |toks|, PRIMARY - level, 0
  {
    if toks != [] && toks[0].Punct? && BinLevel(toks[0].sym) == Some(level) {
      ParseSound(level + 1, toks[1..]);
      var p := Parse(level + 1, toks[1..]);
      if p.Got? {
        var left' := Bin(toks[0].sym, left, p.tree);
        BinTailSound(level, left', p.rest);
        Regroup(Yield(left), toks[0], Yield(p.tree), p.rest);
        assert toks == [toks[0]] + toks[1..];
      }
    }
  }

  lemma {:induction false} PostTailSound(e: Tree, toks: seq<Tok>)
    requires Derives(POSTFIX, e)
    ensures var p := PostTail(e, toks);
      p.Got? ==> Derives(POSTFIX, p.tree) && Yield(p.tree) + p.rest == Yield(e) + toks
    decreases |toks|, 0, 0
  {
    if |toks| > 1 && toks[0].Punct? && IsPostfix(toks[0].sym) && toks[1].Ident? {
      var e' := Post(e, toks[0].sym, toks[1].name);
      PostTailSound(e', toks[2..]);
      assert toks == [toks[0], toks[1]] + toks[2..];
      assert Yield(e') + toks[2..] == Yield(e) + toks;
    }
  }

  lemma {:induction false} PrefixSound(toks: seq<Tok>)
    requires toks != [] && toks[0].Punct? && IsPrefix(toks[0].sym)
    ensures SoundAt(UNARY, toks)
    decreases |toks|, PRIMARY - UNARY, 0
  {
    ParseSound(UNARY, toks[1..]);
    var p := Parse(UNARY, toks[1..]);
    if p.Got? {
      Regroup([], toks[0], Yield(p.tree), p.rest);
      assert [] + [toks[0]] + Yield(p.tree) == Yield(Pre(toks[0].sym, p.tree));
      assert toks == [] + ([toks[0]] + toks[1..]);
    }
  }

  lemma {:induction false} ParenSound(toks: seq<Tok>)
    requires toks != [] && toks[0] == Punct(LParen)
    ensures SoundAt(PRIMARY, toks)
    decreases |toks|, 0, 0
  {
    ParseSound(OR, toks[1..]);
    var p := Parse(OR, toks[1..]);
    if p.Got? && p.rest != [] && p.rest[0] == Punct(RParen) {
      assert toks == [toks[0]] + (Yield(p.tree) + ([p.rest[0]] + p.rest[1..]));
      assert Yield(Paren(p.tree)) + p.rest[1..] == [toks[0]] + (Yield(p.tree) + ([p.rest[0]] + p.rest[1..]));
    }
  }

  /** What the parser returns is derivable and accounts for every token. */
  ghost predicate SoundAt(level: nat, toks: seq<Tok>)
    requires level <= PRIMARY
  {
    var p := Parse(level, toks);
    p.Got? ==> Derives(level, p.tree) && Yield(p.tree) + p.rest == toks
  }

  lemma {:induction false} ParseSound(level: nat, toks: seq<Tok>)
    requires level <= PRIMARY
    ensures SoundAt(level, toks)
    decreases |toks|, PRIMARY - level, 1
  {
    if level < UNARY {
      ParseSound(level + 1, toks);
      var p := Parse(level + 1, toks);
      if p.Got? {
        DerivesLooser(level + 1, level, p.tree);
        BinTailSound(level, p.tree, p.rest);
      }
    } else if level == UNARY {
      if toks != [] && toks[0].Punct? && IsPrefix(toks[0].sym) {
        PrefixSound(toks);
      } else {
        ParseSound(POSTFIX, toks);
      }
    } else if level == POSTFIX {
      ParseSound(PRIMARY, toks);
      var p := Parse(PRIMARY, toks);
      if p.Got? {
        PostTailSound(p.tree, p.rest);
      }
    } else if toks != [] && toks[0] == Punct(LParen) {
      ParenSound(toks);
    }
  }

  /** The parser accepts exactly the sentences of the grammar. */
  lemma ParseExactIff(toks: seq<Tok>, t: Tree)
    ensures ParseAll(toks) == Some(t) <==> Derives(OR, t) && Yield(t) == toks
  {
    ParseSound(OR, toks);
    if ParseAll(toks) == Some(t) {
      assert Yield(t) + [] == Yield(t);
    }
    if Derives(OR, t) && Yield(t) == toks {
      ParseComplete(t);
    }
  }

  // ---------- actions and printing

  function BinOpOf(sym: Sym): Op {
    match sym
    case Pipe => Or
    case Caret => Xor
    case Amp => And
    case Less2 => Shl
    case Greater2 => Shr
    case Plus => Add
    case Minus => Sub
    case Star => Mul
    case Slash => Div
    case _ => Mod
  }

  /** The expression a tree builds: parentheses and unary `+` leave no trace. */
  function Build(t: Tree): Expr {
    match t
    case Bin(sym, l, r) => Binary(BinOpOf(sym), Build(l), Build(r))
    case Pre(sym, e) =>
      if sym.Plus? then Build(e)
      else Unary(if sym.Minus? then Neg else if sym.Tilde? then Not else if sym.Star? then Deref else AddrOf, Build(e))
    case Post(e, sym, f) => if sym.Dot? then Member(Build(e), f) else PtrMember(Build(e), f)
    case Leaf(tok) =>
      (match tok
       case Num(n) => Number(n)
       case Reg(name) => Register(name)
       case Ident(name) => Variable(name)
       case Punct(_) => Number(0))
    case Paren(e) => Build(e)
  }

  function ParseExpr(toks: seq<Tok>): Option<Expr> {
    match ParseAll(toks)
    case Some(t) => Some(Build(t))
    case None => None
  }

  function BinSym(op: Op): Sym
    requires !IsUnaryOp(op)
  {
    match op
    case Or => Pipe
    case Xor => Caret
    case And => Amp
    case Shl => Less2
    case Shr => Greater2
    case Add => Plus
    case Sub => Minus
    case Mul => Star
    case Div => Slash
    case Mod => Percent
  }

  function PreSym(op: Op): Sym {
    if op.Neg? then Minus else if op.Not? then Tilde else if op.Deref? then Star else Amp
  }

  function LevelOf(e: Expr): nat
    requires WellFormed(e)
  {
    match e
    case Binary(op, _, _) => BinLevel(BinSym(op)).value
    case Unary(_, _) => UNARY
    case Member(_, _) => POSTFIX
    case PtrMember(_, _) => POSTFIX
    case _ => PRIMARY
  }

  function Show(e: Expr): Tree
    requires WellFormed(e)
    decreases e, 0
  {
    match e
    case Binary(op, l, r) => Bin(BinSym(op), ShowAt(LevelOf(e), l), ShowAt(LevelOf(e) + 1, r))
    case Unary(op, e1) => Pre(PreSym(op), ShowAt(UNARY, e1))
    case Member(b, f) => Post(ShowAt(POSTFIX, b), Dot, f)
    case PtrMember(b, f) => Post(ShowAt(POSTFIX, b), Arrow, f)
    case Number(n) => Leaf(Num(n))
    case Register(name) => Leaf(Reg(name))
    case Variable(name) => Leaf(Ident(name))
  }

  /** Parentheses only where the layer needs them. */
  function ShowAt(level: nat, e: Expr): Tree
    requires WellFormed(e)
    decreases e, 1
  {
    if LevelOf(e) >= level then Show(e) else Paren(Show(e))
  }

  /** With parentheses where they are needed it always fits. */
  lemma ShownFits(level: nat, e: Expr)
    requires WellFormed(e) && level <= PRIMARY && Derives(OR, Show(e))
    requires LevelOf(e) >= level ==> Derives(level, Show(e))
    ensures Derives(level, ShowAt(level, e))
  {
    hide Show, LevelOf;
  }

  lemma {:induction false} ShowDerivesIff(level: nat, e: Expr)
    requires WellFormed(e)
    ensures Derives(level, Show(e)) <==> LevelOf(e) >= level
    decreases e, 0
  {
    hide ShowAt;
    match e
    case Binary(op, l, r) =>
      OperandFits(LevelOf(e), l);
      OperandFits(LevelOf(e) + 1, r);
    case Unary(op, e1) => OperandFits(UNARY, e1);
    case Member(b, f) => OperandFits(POSTFIX, b);
    case PtrMember(b, f) => OperandFits(POSTFIX, b);
    case _ =>
  }

  lemma {:induction false} OperandFits(level: nat, e: Expr)
    requires WellFormed(e) && level <= PRIMARY
    ensures Derives(level, ShowAt(level, e))
    decreases e, 1
  {
    hide Show, ShowAt, Derives;
    ShowDerivesIff(level, e);
    ShowDerivesIff(OR, e);
    ShownFits(level, e);
  }

  /** A bare printing fits a layer exactly when no parentheses are put around it there. */
  lemma {:induction false} ParensExactIff(level: nat, e: Expr)
    requires WellFormed(e)
    ensures Derives(level, Show(e)) <==> LevelOf(e) >= level
    ensures level <= PRIMARY ==> Derives(level, ShowAt(level, e))
  {
    ShowDerivesIff(level, e);
    if level <= PRIMARY {
      OperandFits(level, e);
    }
  }

  /** Parentheses build nothing of their own. */
  lemma BuildShowAt(level: nat, e: Expr)
    requires WellFormed(e) && Build(Show(e)) == e
    ensures Build(ShowAt(level, e)) == e
  {
    hide Show;
  }

  lemma {:induction false} BuildShows(e: Expr)
    requires WellFormed(e)
    ensures Build(Show(e)) == e
    decreases e
  {
    hide ShowAt;
    match e
    case Binary(op, l, r) =>
      BuildShows(l);
      BuildShows(r);
      BuildShowAt(LevelOf(e), l);
      BuildShowAt(LevelOf(e) + 1, r);
    case Unary(op, e1) =>
      BuildShows(e1);
      BuildShowAt(UNARY, e1);
    case Member(b, f) =>
      BuildShows(b);
      BuildShowAt(POSTFIX, b);
    case PtrMember(b, f) =>
      BuildShows(b);
      BuildShowAt(POSTFIX, b);
    case _ =>
  }

  /** Printing with the fewest parentheses and parsing again gives the expression back. */
  lemma RoundTrip(e: Expr)
    requires WellFormed(e)
    ensures ParseExpr(Yield(ShowAt(OR, e))) == Some(e)
  {
    ParensExactIff(OR, e);
    ParseComplete(ShowAt(OR, e));
    BuildShows(e);
  }

  /** Whatever parses is a well-formed expression. */
  lemma {:induction false} BuildWellFormed(level: nat, t: Tree)
    requires Derives(level, t)
    ensures WellFormed(Build(t))
    decreases t
  {
    match t
    case Bin(sym, l, r) =>
      BuildWellFormed(BinLevel(sym).value, l);
      BuildWellFormed(BinLevel(sym).value + 1, r);
    case Pre(_, e) => BuildWellFormed(UNARY, e);
    case Post(e, _, _) => BuildWellFormed(POSTFIX, e);
    case Paren(e) => BuildWellFormed(OR, e);
    case Leaf(_) =>
  }

  /** Hence the printable expressions are exactly the ones that can be typed in. */
  lemma ParsedIsWellFormed(toks: seq<Tok>)
    requires ParseExpr(toks).Some?
    ensures WellFormed(ParseExpr(toks).value)
  {
    var t := ParseAll(toks).value;
    ParseExactIff(toks, t);
    BuildWellFormed(OR, t);
  }

  // ---------- which operator binds tighter

  /** The binary productions in the order of the grammar, the loosest layer first. */
  function Layers(): (layers: seq<seq<(Sym, Op)>>)
    ensures |layers| == 6
  {
    [[(Pipe, Or)],
     [(Caret, Xor)],
     [(Amp, And)],
     [(Less2, Shl), (Greater2, Shr)],
     [(Sym.Plus, Add), (Minus, Sub)],
     [(Star, Mul), (Slash, Div), (Percent, Mod)]]
  }

  /** The unary productions that build something. */
  function Prefixes(): seq<(Sym, Op)> {
    [(Minus, Neg), (Tilde, Not), (Star, Deref), (Amp, AddrOf)]
  }

  lemma LayerIs(i: nat, a: (Sym, Op))
    requires i < 6 && a in Layers()[i]
    ensures BinLevel(a.0) == Some(i) && BinOpOf(a.0) == a.1
  {
  }

  lemma PrefixIs(a: (Sym, Op))
    requires a in Prefixes()
    ensures IsPrefix(a.0) && forall t :: Build(Pre(a.0, t)) == Unary(a.1, Build(t))
  {
  }

  /** A number, a register or a variable. */
  function Atom(tok: Tok): Expr {
    Build(Leaf(tok))
  }

  lemma ParsesAs(t: Tree, toks: seq<Tok>)
    requires Derives(OR, t) && Yield(t) == toks
    ensures ParseExpr(toks) == Some(Build(t))
  {
    ParseComplete(t);
  }

  lemma YieldTwo(a: Sym, x: Tok, y: Tok)
    ensures Yield(Bin(a, Leaf(x), Leaf(y))) == [x, Punct(a), y]
  {
  }

  /** An operator of a later layer takes its operands first, on either side of one of an
      earlier layer. */
  lemma TighterFirst(i: nat, j: nat, a: (Sym, Op), b: (Sym, Op), x: Tok, y: Tok, z: Tok)
    requires i < j < 6 && a in Layers()[i] && b in Layers()[j] && !x.Punct? && !y.Punct? && !z.Punct?
    ensures ParseExpr([x, Punct(a.0), y, Punct(b.0), z])
         == Some(Binary(a.1, Atom(x), Binary(b.1, Atom(y), Atom(z))))
    ensures ParseExpr([x, Punct(b.0), y, Punct(a.0), z])
         == Some(Binary(a.1, Binary(b.1, Atom(x), Atom(y)), Atom(z)))
  {
    LayerIs(i, a);
    LayerIs(j, b);
    hide Layers, BinLevel, BinOpOf, ParseExpr;
    YieldTwo(b.0, y, z);
    YieldTwo(b.0, x, y);
    ParsesAs(Bin(a.0, Leaf(x), Bin(b.0, Leaf(y), Leaf(z))), [x, Punct(a.0), y, Punct(b.0), z]);
    ParsesAs(Bin(a.0, Bin(b.0, Leaf(x), Leaf(y)), Leaf(z)), [x, Punct(b.0), y, Punct(a.0), z]);
  }

  /** Operators of one layer group to the left. */
  lemma LeftFirst(i: nat, a: (Sym, Op), b: (Sym, Op), x: Tok, y: Tok, z: Tok)
    requires i < 6 && a in Layers()[i] && b in Layers()[i] && !x.Punct? && !y.Punct? && !z.Punct?
    ensures ParseExpr([x, Punct(a.0), y, Punct(b.0), z])
         == Some(Binary(b.1, Binary(a.1, Atom(x), Atom(y)), Atom(z)))
  {
    LayerIs(i, a);
    LayerIs(i, b);
    YieldTwo(a.0, x, y);
    hide Layers, BinLevel, BinOpOf, ParseExpr;
    ParsesAs(Bin(b.0, Bin(a.0, Leaf(x), Leaf(y)), Leaf(z)), [x, Punct(a.0), y, Punct(b.0), z]);
  }

  /** A prefix takes its operand before any binary operator, and after `.` and `->`;
      unary `+` is its operand. */
  lemma PrefixBetween(p: (Sym, Op), i: nat, b: (Sym, Op), x: Tok, y: Tok, f: string)
    requires p in Prefixes() && i < 6 && b in Layers()[i] && !x.Punct? && !y.Punct?
    ensures ParseExpr([Punct(p.0), x, Punct(b.0), y]) == Some(Binary(b.1, Unary(p.1, Atom(x)), Atom(y)))
    ensures ParseExpr([x, Punct(b.0), Punct(p.0), y]) == Some(Binary(b.1, Atom(x), Unary(p.1, Atom(y))))
    ensures ParseExpr([Punct(p.0), x, Punct(Dot), Ident(f)]) == Some(Unary(p.1, Member(Atom(x), f)))
    ensures ParseExpr([Punct(p.0), x, Punct(Arrow), Ident(f)]) == Some(Unary(p.1, PtrMember(Atom(x), f)))
    ensures ParseExpr([Punct(Sym.Plus), x]) == Some(Atom(x))
  {
    LayerIs(i, b);
    PrefixIs(p);
    hide Layers, Prefixes, BinLevel, BinOpOf, ParseExpr;
    assert Yield(Pre(p.0, Leaf(x))) == [Punct(p.0), x];
    ParsesAs(Bin(b.0, Pre(p.0, Leaf(x)), Leaf(y)), [Punct(p.0), x, Punct(b.0), y]);
    ParsesAs(Bin(b.0, Leaf(x), Pre(p.0, Leaf(y))), [x, Punct(b.0), Punct(p.0), y]);
    ParsesAs(Pre(p.0, Post(Leaf(x), Dot, f)), [Punct(p.0), x, Punct(Dot), Ident(f)]);
    ParsesAs(Pre(p.0, Post(Leaf(x), Arrow, f)), [Punct(p.0), x, Punct(Arrow), Ident(f)]);
    ParsesAs(Pre(Sym.Plus, Leaf(x)), [Punct(Sym.Plus), x]);
  }

  /** Two operands in parentheses stand in any layer. */
  lemma InParens(i: nat, j: nat, a: (Sym, Op), x: Tok, y: Tok)
    requires i < 6 && j <= PRIMARY && a in Layers()[i] && !x.Punct? && !y.Punct?
    ensures var inner := Paren(Bin(a.0, Leaf(x), Leaf(y)));
      && Derives(j, inner) && Build(inner) == Binary(a.1, Atom(x), Atom(y))
      && Yield(inner) == [Punct(LParen), x, Punct(a.0), y, Punct(RParen)]
  {
    LayerIs(i, a);
    hide Layers, BinLevel, BinOpOf;
    YieldTwo(a.0, x, y);
    assert Derives(OR, Bin(a.0, Leaf(x), Leaf(y)));
  }

  /** Parentheses come before everything. */
  lemma ParensFirst(i: nat, j: nat, a: (Sym, Op), b: (Sym, Op), x: Tok, y: Tok, z: Tok)
    requires i < 6 && j < 6 && a in Layers()[i] && b in Layers()[j] && !x.Punct? && !y.Punct? && !z.Punct?
    ensures ParseExpr([Punct(LParen), x, Punct(a.0), y, Punct(RParen), Punct(b.0), z])
         == Some(Binary(b.1, Binary(a.1, Atom(x), Atom(y)), Atom(z)))
  {
    LayerIs(j, b);
    InParens(i, j, a, x, y);
    hide Layers, BinLevel, BinOpOf, ParseExpr;
    ParsesAs(Bin(b.0, Paren(Bin(a.0, Leaf(x), Leaf(y))), Leaf(z)),
             [Punct(LParen), x, Punct(a.0), y, Punct(RParen), Punct(b.0), z]);
  }
}
