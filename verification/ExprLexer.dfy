/** The lexer the grammar's token patterns define: white space skipped, longest match. */
module ExprLexer {
  import opened Words
  import opened ExprAst
  import opened ExprGrammar

  // ---------- the patterns

  /** The white space of `\s` up to 127: tab, line feed, vertical tab, form feed, carriage
      return and space. */
  predicate IsSpace(c: char) {
    c == ' ' || '\t' <= c <= '\r'
  }

  predicate IsDigit(c: char) {
    '0' <= c <= '9'
  }

  predicate NameStart(c: char) {
    'A' <= c <= 'Z' || 'a' <= c <= 'z' || c == '_'
  }

  /** `[A-Za-z_][A-Za-z0-9_]*` */
  predicate IsName(s: string) {
    s != [] && NameStart(s[0]) && forall i :: 0 <= i < |s| ==> NameStart(s[i]) || IsDigit(s[i])
  }

  function DigitValue(c: char): nat {
    if IsDigit(c) then (c - '0') as nat
    else if 'a' <= c <= 'f' then (c - 'a') as nat + 10
    else if 'A' <= c <= 'F' then (c - 'A') as nat + 10
    else 16
  }

  predicate AllDigits(s: string, radix: nat) {
    forall i :: 0 <= i < |s| ==> DigitValue(s[i]) < radix
  }

  function ValueOf(s: string, radix: nat): nat {
    if s == [] then 0 else ValueOf(s[..|s| - 1], radix) * radix + DigitValue(s[|s| - 1])
  }

  /** `from_str_radix(..).unwrap_or(0)`: a number that does not fit becomes zero. */
  function Fitted(v: nat): Word {
    if v < WORD then v else 0
  }

  function Radix(c: char): Option<nat> {
    if c == 'x' || c == 'X' then Some(16)
    else if c == 'b' || c == 'B' then Some(2)
    else if c == 'o' || c == 'O' then Some(8)
    else None
  }

  function NumberOf(s: string): Option<Word> {
    if |s| > 2 && s[0] == '0' && Radix(s[1]).Some? && AllDigits(s[2..], Radix(s[1]).value) then
      Some(Fitted(ValueOf(s[2..], Radix(s[1]).value)))
    else if s != [] && AllDigits(s, 10) then Some(Fitted(ValueOf(s, 10)))
    else None
  }

  function SymOf(s: string): Option<Sym> {
    if s == "+" then Some(Sym.Plus) else if s == "-" then Some(Minus) else if s == "*" then Some(Star)
    else if s == "/" then Some(Slash) else if s == "%" then Some(Percent) else if s == "&" then Some(Amp)
    else if s == "|" then Some(Pipe) else if s == "^" then Some(Caret) else if s == "~" then Some(Tilde)
    else if s == "<<" then Some(Less2) else if s == ">>" then Some(Greater2) else if s == "." then Some(Dot)
    else if s == "->" then Some(Arrow) else if s == "(" then Some(LParen) else if s == ")" then Some(RParen)
    else None
  }

  /** The token a whole text denotes. */
  function Denotes(s: string): Option<Tok> {
    if SymOf(s).Some? then Some(Punct(SymOf(s).value))
    else if NumberOf(s).Some? then Some(Num(NumberOf(s).value))
    else if |s| > 1 && s[0] == '$' && IsName(s[1..]) then Some(Reg(s[1..]))
    else if IsName(s) then Some(Ident(s))
    else None
  }

  // ---------- the lexer

  /** The length of the longest token among the first `n` prefixes, or zero. */
  function Longest(s: string, n: nat): (k: nat)
    requires n <= |s|
    ensures k <= n && (k > 0 ==> Denotes(s[..k]).Some?)
    ensures forall j :: k < j <= n ==> Denotes(s[..j]) == None
  {
    if n == 0 then 0 else if Denotes(s[..n]).Some? then n else Longest(s, n - 1)
  }

  function Lex(s: string): Option<seq<Tok>>
    decreases |s|
  {
    if s == [] then Some([])
    else if IsSpace(s[0]) then Lex(s[1..])
    else
      var k := Longest(s, |s|);
      if k == 0 then None
      else
        match Lex(s[k..])
        case None => None
        case Some(rest) => Some([Denotes(s[..k]).value] + rest)
  }

  // ---------- writing tokens

  function Digit(d: nat): char
    requires d < 10
  {
    '0' + d as char
  }

  function Decimal(n: nat): (s: string)
    ensures s != []
  {
    if n < 10 then [Digit(n)] else Decimal(n / 10) + [Digit(n % 10)]
  }

  function SymText(sym: Sym): string {
    match sym
    case Plus => "+"
    case Minus => "-"
    case Star => "*"
    case Slash => "/"
    case Percent => "%"
    case Amp => "&"
    case Pipe => "|"
    case Caret => "^"
    case Tilde => "~"
    case Less2 => "<<"
    case Greater2 => ">>"
    case Dot => "."
    case Arrow => "->"
    case LParen => "("
    case RParen => ")"
  }

  function Text(t: Tok): string {
    match t
    case Punct(sym) => SymText(sym)
    case Num(n) => Decimal(n)
    case Reg(name) => "$" + name
    case Ident(name) => name
  }

  /** Registers and identifiers carry names the patterns accept. */
  predicate Writable(t: Tok) {
    (t.Reg? || t.Ident?) ==> IsName(t.name)
  }

  /** Tokens with a space after each. */
  function Write(toks: seq<Tok>): string {
    if toks == [] then [] else Text(toks[0]) + " " + Write(toks[1..])
  }

  // ---------- reading back

  lemma {:induction false} DecimalReads(n: nat)
    ensures AllDigits(Decimal(n), 10) && ValueOf(Decimal(n), 10) == n
    ensures forall i :: 0 <= i < |Decimal(n)| ==> IsDigit(Decimal(n)[i])
  {
    if n < 10 {
      assert Decimal(n)[..0] == [];
      assert DigitValue(Digit(n)) == n;
    } else {
      DecimalReads(n / 10);
      var s := Decimal(n);
      assert s[..|s| - 1] == Decimal(n / 10);
      assert DigitValue(Digit(n % 10)) == n % 10;
    }
  }

  lemma NoDigitPunctuation(s: string)
    requires s != [] && DigitValue(s[0]) < 10
    ensures SymOf(s) == None
  {
  }

  /** No decimal literal has the prefix of another radix, or is punctuation. */
  lemma DigitsAreNumber(digits: string)
    requires digits != [] && AllDigits(digits, 10)
    ensures SymOf(digits) == None && NumberOf(digits) == Some(Fitted(ValueOf(digits, 10)))
  {
    assert DigitValue(digits[0]) < 10;
    assert |digits| > 2 ==> DigitValue(digits[1]) < 10;
    NoDigitPunctuation(digits);
    hide SymOf, ValueOf;
  }

  lemma NumDenotes(n: Word)
    ensures Denotes(Decimal(n)) == Some(Num(n))
  {
    hide Denotes;
    DecimalReads(n);
    LiteralExactIff(Decimal(n));
  }

  /** A literal is its value exactly when that fits in 64 bits; otherwise it is zero. */
  lemma LiteralExactIff(digits: string)
    requires digits != [] && AllDigits(digits, 10)
    ensures Denotes(digits).Some? && Denotes(digits).value.Num?
    ensures Denotes(digits).value.n == ValueOf(digits, 10) <==> ValueOf(digits, 10) < WORD
    ensures ValueOf(digits, 10) >= WORD ==> Denotes(digits).value.n == 0
  {
    DigitsAreNumber(digits);
    hide SymOf, NumberOf, ValueOf, IsName;
  }

  /** 2^64 written out reads as zero. */
  lemma FirstTooBig()
    ensures Denotes(Decimal(WORD)) == Some(Num(0))
  {
    hide Denotes;
    DecimalReads(WORD);
    LiteralExactIff(Decimal(WORD));
  }

  lemma NameDenotes(name: string)
    requires IsName(name)
    ensures Denotes(name) == Some(Ident(name)) && Denotes("$" + name) == Some(Reg(name))
  {
    assert SymOf(name) == None && NumberOf(name) == None by {
      assert NameStart(name[0]);
    }
    var s := "$" + name;
    assert s[1..] == name && s[0] == '$';
    assert SymOf(s) == None && NumberOf(s) == None;
  }

  lemma TextDenotes(t: Tok)
    requires Writable(t)
    ensures Denotes(Text(t)) == Some(t) && Text(t) != []
  {
    match t
    case Punct(sym) =>
    case Num(n) => NumDenotes(n);
    case Reg(name) => NameDenotes(name);
    case Ident(name) => NameDenotes(name);
  }

  /** No pattern matches a text with white space in it. */
  lemma NoSpaceInside(s: string, i: nat)
    requires i < |s| && IsSpace(s[i])
    ensures Denotes(s) == None
  {
    assert DigitValue(s[i]) == 16;
    if |s| > 2 && i >= 2 {
      assert s[2..][i - 2] == s[i];
    }
    if |s| > 1 && i >= 1 {
      assert s[1..][i - 1] == s[i];
    }
  }

  lemma {:induction false} LongestIs(s: string, k: nat, n: nat)
    requires 0 < k <= n <= |s| && Denotes(s[..k]).Some?
    requires forall j :: k < j <= n ==> Denotes(s[..j]) == None
    ensures Longest(s, n) == k
    decreases n
  {
    if n > k {
      assert Denotes(s[..n]) == None;
      LongestIs(s, k, n - 1);
    }
  }

  lemma LexFirst(t: Tok, rest: string)
    requires Writable(t)
    ensures Lex(Text(t) + " " + rest) ==
      match Lex(rest) case None => None case Some(toks) => Some([t] + toks)
  {
    var text := Text(t);
    var s, k := text + " " + rest, |text|;
    TextDenotes(t);
    hide Denotes, Text, Writable;
    assert s[..k] == text && s[k] == ' ';
    forall j | k < j <= |s|
      ensures Denotes(s[..j]) == None
    {
      NoSpaceInside(s[..j], k);
    }
    LongestIs(s, k, |s|);
    assert !IsSpace(s[0]) by {
      if IsSpace(s[0]) {
        NoSpaceInside(text, 0);
      }
    }
    assert s[k..] == " " + rest && (" " + rest)[1..] == rest;
  }

  /** Written tokens are read back as they were. */
  lemma {:induction false} WriteLexes(toks: seq<Tok>)
    requires forall i :: 0 <= i < |toks| ==> Writable(toks[i])
    ensures Lex(Write(toks)) == Some(toks)
    decreases |toks|
  {
    if toks != [] {
      hide Text, Writable;
      WriteLexes(toks[1..]);
      LexFirst(toks[0], Write(toks[1..]));
      assert toks == [toks[0]] + toks[1..];
    }
  }

  // ---------- the other radices, symbols and white space

  const LOWER: string := "0123456789abcdef"
  const UPPER: string := "0123456789ABCDEF"

  /** What a character is worth: its place in either row, and 16 elsewhere. */
  lemma DigitsWorth(c: char, d: nat)
    ensures d < 16 ==> DigitValue(LOWER[d]) == d && DigitValue(UPPER[d]) == d
    ensures DigitValue(c) < 16 ==> LOWER[DigitValue(c)] == c || UPPER[DigitValue(c)] == c
  {
  }

  /** `n` written in a radix, in lower or upper case. */
  function Numeral(n: nat, radix: nat, digits: string): (s: string)
    requires 2 <= radix <= 16 == |digits|
    ensures s != []
    decreases n
  {
    if n < radix then [digits[n]]
    else
      Shrinks(n, radix);
      Numeral(n / radix, radix, digits) + [digits[n % radix]]
  }

  lemma Shrinks(n: nat, radix: nat)
    requires 2 <= radix <= n
    ensures 0 <= n / radix < n && n / radix * radix + n % radix == n
  {
    var q := n / radix;
    assert n == radix * q + n % radix;
    Multiples(radix, q);
  }

  lemma Multiples(radix: nat, q: int)
    requires 2 <= radix
    ensures q <= 0 ==> radix * q <= 0
    ensures q >= 1 ==> radix * q >= 2 * q
  {
  }

  lemma DigitAdded(s: string, c: char, radix: nat, v: nat)
    requires AllDigits(s, radix) && ValueOf(s, radix) == v && DigitValue(c) < radix
    ensures AllDigits(s + [c], radix) && ValueOf(s + [c], radix) == v * radix + DigitValue(c)
  {
    assert (s + [c])[..|s|] == s;
  }

  lemma {:induction false} NumeralReads(n: nat, radix: nat, digits: string)
    requires 2 <= radix <= 16 && (digits == LOWER || digits == UPPER)
    ensures AllDigits(Numeral(n, radix, digits), radix) && ValueOf(Numeral(n, radix, digits), radix) == n
    decreases n
  {
    hide DigitValue, AllDigits;
    DigitsWorth(' ', if n < radix then n else n % radix);
    if n < radix {
      DigitAdded([], digits[n], radix, 0) by { NoDigits(radix); }
      assert [] + [digits[n]] == [digits[n]];
    } else {
      Shrinks(n, radix);
      NumeralReads(n / radix, radix, digits);
      DigitAdded(Numeral(n / radix, radix, digits), digits[n % radix], radix, n / radix);
    }
  }

  lemma NoDigits(radix: nat)
    ensures AllDigits([], radix) && ValueOf([], radix) == 0
  {
  }

  /** A number written after `0x`, `0b` or `0o`, in either case, is read back if it fits 64
      bits, and is zero if it does not. */
  lemma RadixReads(n: nat, prefix: string, radix: nat, digits: string)
    requires digits == LOWER || digits == UPPER
    requires || (radix == 16 && (prefix == "0x" || prefix == "0X"))
             || (radix == 2 && (prefix == "0b" || prefix == "0B"))
             || (radix == 8 && (prefix == "0o" || prefix == "0O"))
    ensures Denotes(prefix + Numeral(n, radix, digits)) == Some(Num(if n < WORD then n else 0))
  {
    var numeral := Numeral(n, radix, digits);
    var s := prefix + numeral;
    NumeralReads(n, radix, digits);
    assert s[0] == '0' && s[1] == prefix[1] && s[2..] == numeral;
    hide ValueOf, AllDigits, Numeral, Denotes;
    PrefixedDenotes(s, radix);
  }

  lemma PrefixedDenotes(s: string, radix: nat)
    requires |s| > 2 && s[0] == '0' && Radix(s[1]) == Some(radix) && AllDigits(s[2..], radix)
    ensures Denotes(s) == Some(Num(Fitted(ValueOf(s[2..], radix))))
  {
    NoDigitPunctuation(s);
    hide SymOf, ValueOf, AllDigits, IsName;
  }

  /** Letters, the underscore and digits by their codes. */
  lemma NamesStart(c: char)
    ensures NameStart(c) <==> 65 <= c as int <= 90 || 97 <= c as int <= 122 || c as int == 95
    ensures IsDigit(c) <==> 48 <= c as int <= 57
  {
  }

  /** A name is a word of letters, underscores and digits that begins with no digit. */
  lemma NameIs(s: string)
    ensures IsName(s)
       <==> s != [] && !(48 <= s[0] as int <= 57)
            && forall c :: c in s ==> 65 <= c as int <= 90 || 97 <= c as int <= 122 || c as int == 95
                                      || 48 <= c as int <= 57
  {
    if s != [] && forall c :: c in s ==> NameStart(c) || IsDigit(c) {
      assert s[0] in s;
    }
  }

  /** A prefix without digits after it is no number: what is read is the zero alone. */
  lemma BarePrefix(c: char)
    requires c in ['x', 'X', 'b', 'B', 'o', 'O']
    ensures Denotes(['0', c]) == None && Longest(['0', c], 2) == 1 && Denotes("0") == Some(Num(0))
  {
    var s := ['0', c];
    assert s[1] == c && s[..1] == "0" && s[..2] == s;
    assert DigitValue(s[1]) >= 10;
    assert AllDigits("0", 10) && "0"[..0] == "" && ValueOf("0", 10) == 0;
  }

  /** White space before a token is skipped, whatever it is. */
  lemma SpaceSkipped(c: char, s: string)
    requires c in [' ', '\t', '\n', '\U{B}', '\U{C}', '\r']
    ensures Lex([c] + s) == Lex(s)
  {
    assert ([c] + s)[1..] == s;
  }

  /** Without a space the longest match is taken: `->` is no minus. */
  lemma ArrowTaken()
    ensures Longest("->x", 3) == 2
  {
    assert "->x"[..2] == "->" && "->x"[..3] == "->x";
    LongestIs("->x", 2, 3);
  }

  // ---------- from text to expression

  function ParseText(s: string): Option<Expr> {
    match Lex(s)
    case None => None
    case Some(toks) => ParseExpr(toks)
  }

  predicate NamesOk(e: Expr) {
    match e
    case Number(_) => true
    case Register(name) => IsName(name)
    case Variable(name) => IsName(name)
    case Unary(_, e1) => NamesOk(e1)
    case Binary(_, l, r) => NamesOk(l) && NamesOk(r)
    case Member(b, f) => NamesOk(b) && IsName(f)
    case PtrMember(b, f) => NamesOk(b) && IsName(f)
  }

  ghost predicate AllWritable(toks: seq<Tok>) {
    forall i :: 0 <= i < |toks| ==> Writable(toks[i])
  }

  lemma WritableConcat(a: seq<Tok>, b: seq<Tok>)
    requires AllWritable(a) && AllWritable(b)
    ensures AllWritable(a + b)
  {
    hide Writable;
  }

  lemma {:induction false} ShowWritable(e: Expr)
    requires WellFormed(e) && NamesOk(e)
    ensures AllWritable(Yield(Show(e)))
    ensures forall level :: AllWritable(Yield(ShowAt(level, e)))
    decreases e
  {
    match e
    case Binary(op, l, r) =>
      ShowWritable(l);
      ShowWritable(r);
      var x, y := Yield(ShowAt(LevelOf(e), l)), Yield(ShowAt(LevelOf(e) + 1, r));
      WritableConcat(x, [Punct(BinSym(op))]);
      WritableConcat(x + [Punct(BinSym(op))], y);
      ParensWritable(e);
    case Unary(op, e1) =>
      ShowWritable(e1);
      WritableConcat([Punct(PreSym(op))], Yield(ShowAt(UNARY, e1)));
      ParensWritable(e);
    case Member(b, f) =>
      ShowWritable(b);
      WritableConcat(Yield(ShowAt(POSTFIX, b)), [Punct(Dot), Ident(f)]);
      ParensWritable(e);
    case PtrMember(b, f) =>
      ShowWritable(b);
      WritableConcat(Yield(ShowAt(POSTFIX, b)), [Punct(Arrow), Ident(f)]);
      ParensWritable(e);
    case _ => ParensWritable(e);
  }

  lemma ParensWritable(e: Expr)
    requires WellFormed(e) && AllWritable(Yield(Show(e)))
    ensures forall level :: AllWritable(Yield(ShowAt(level, e)))
  {
    forall level
      ensures AllWritable(Yield(ShowAt(level, e)))
    {
      if LevelOf(e) < level {
        WritableConcat([Punct(LParen)], Yield(Show(e)));
        WritableConcat([Punct(LParen)] + Yield(Show(e)), [Punct(RParen)]);
      }
    }
  }

  /** Typed in as printed, with the fewest parentheses, an expression is read back. */
  lemma TextRoundTrip(e: Expr)
    requires WellFormed(e) && NamesOk(e)
    ensures ParseText(Write(Yield(ShowAt(OR, e)))) == Some(e)
  {
    ShowWritable(e);
    WriteLexes(Yield(ShowAt(OR, e)));
    RoundTrip(e);
  }
}
