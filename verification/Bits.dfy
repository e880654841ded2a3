/** Bitwise operations on unsigned words and on unbounded two's complement integers. */
module Bits {
  import opened Words

  datatype BitOp = BitAnd | BitOr | BitXor

  type Bit = b: nat | b < 2

  function Combine(op: BitOp, x: Bit, y: Bit): Bit {
    match op
    case BitAnd => if x == 1 then y else 0
    case BitOr => if x == 1 || y == 1 then 1 else 0
    case BitXor => (x + y) % 2
  }

  function Pow2(k: nat): (p: nat)
    ensures p > 0
  {
    if k == 0 then 1 else 2 * Pow2(k - 1)
  }

  /** `op` on the low `k` bits of two naturals. */
  function WordBits(op: BitOp, k: nat, x: nat, y: nat): (r: nat)
    ensures r < Pow2(k)
  {
    if k == 0 then 0 else Combine(op, x % 2, y % 2) + 2 * WordBits(op, k - 1, x / 2, y / 2)
  }

  function Size(x: int): nat {
    if x >= 0 then x else -x - 1
  }

  /** `op` on all bits of two integers in infinite two's complement. */
  function IntBits(op: BitOp, x: int, y: int): int
    decreases Size(x) + Size(y)
  {
    if -1 <= x <= 0 && -1 <= y <= 0 then -(Combine(op, x % 2, y % 2) as int)
    else Combine(op, x % 2, y % 2) + 2 * IntBits(op, x / 2, y / 2)
  }

  lemma IntBitsUnrolls(op: BitOp, x: int, y: int)
    ensures IntBits(op, x, y) == Combine(op, x % 2, y % 2) + 2 * IntBits(op, x / 2, y / 2)
  {
    if -1 <= x <= 0 && -1 <= y <= 0 {
      assert x / 2 == x && y / 2 == y;
    }
  }

  lemma ModUnique(x: int, p: nat, q: int, r: nat)
    requires p > 0 && r < p && x == q * p + r
    ensures x % p == r
  {
    var d := x / p - q;
    assert x == p * (x / p) + x % p;
    assert d * p == r - x % p by {
      assert d * p == (x / p) * p - q * p;
    }
    MulFar(d, p);
  }

  lemma MulFar(d: int, p: nat)
    ensures d >= 1 ==> d * p >= p
    ensures d <= -1 ==> d * p <= -(p as int)
  {
  }

  /** The low bit and the rest of a number modulo twice a power. */
  lemma ModDouble(b: Bit, z: int, p: nat)
    requires p > 0
    ensures (b + 2 * z) % (2 * p) == b + 2 * (z % p)
  {
    var q := z / p;
    assert z == q * p + z % p;
    assert b + 2 * z == q * (2 * p) + (b + 2 * (z % p)) by {
      assert q * (2 * p) == 2 * (q * p);
    }
    ModUnique(b + 2 * z, 2 * p, q, b + 2 * (z % p));
  }

  lemma LowBits(x: int, p: nat)
    requires p > 0
    ensures (x % (2 * p)) % 2 == x % 2 && (x % (2 * p)) / 2 == (x / 2) % p
  {
    ModDouble(x % 2, x / 2, p);
  }

  /** Reducing modulo 2^k commutes with the bitwise operations. */
  lemma {:induction false} BitsReduce(op: BitOp, k: nat, x: int, y: int)
    ensures IntBits(op, x, y) % Pow2(k) == WordBits(op, k, x % Pow2(k), y % Pow2(k))
    decreases k
  {
    if k > 0 {
      var p := Pow2(k - 1);
      LowBits(x, p);
      LowBits(y, p);
      IntBitsUnrolls(op, x, y);
      BitsReduce(op, k - 1, x / 2, y / 2);
      ModDouble(Combine(op, x % 2, y % 2), IntBits(op, x / 2, y / 2), p);
    }
  }

  lemma Pow2Word()
    ensures Pow2(64) == WORD
  {
    Pow2Byte();
    hide Pow2;
    Pow2Add(8, 8);
    Pow2Add(16, 16);
    Pow2Add(32, 32);
  }

  lemma Pow2Byte()
    ensures Pow2(8) == 256
  {
    assert Pow2(4) == 16;
  }

  lemma {:induction false} Pow2Add(a: nat, b: nat)
    ensures Pow2(a + b) == Pow2(a) * Pow2(b)
  {
    if a > 0 {
      Pow2Add(a - 1, b);
    }
  }

  lemma ByOne(y: nat)
    ensures y * Pow2(0) == y
  {
  }

  lemma TwiceShift(y: nat, k: nat)
    requires k > 0
    ensures y * Pow2(k) == 2 * (y * Pow2(k - 1))
  {
    var p := Pow2(k - 1);
    assert Pow2(k) == 2 * p;
  }

  lemma OrNone(n: nat, y: nat)
    requires n > 0 && WordBits(BitOr, n - 1, 0, y / 2) == (y / 2) % Pow2(n - 1)
    ensures WordBits(BitOr, n, 0, y) == y % Pow2(n)
  {
    ModDouble(y % 2, y / 2, Pow2(n - 1));
  }

  lemma OrHigh(n: nat, x: nat, z: nat)
    requires n > 0 && WordBits(BitOr, n - 1, x / 2, z) == x / 2 + z % Pow2(n - 1)
    ensures WordBits(BitOr, n, x, 2 * z) == x + (2 * z) % Pow2(n)
  {
    ModDouble(0, z, Pow2(n - 1));
    assert (2 * z) % 2 == 0 && (2 * z) / 2 == z;
  }

  /** Setting bits above `k` where there are none is addition. */
  lemma {:induction false} OrIsAdd(n: nat, k: nat, x: nat, y: nat)
    requires k <= n && x < Pow2(k)
    ensures WordBits(BitOr, n, x, y * Pow2(k)) == x + (y * Pow2(k)) % Pow2(n)
    decreases n
  {
    if n > 0 {
      if k == 0 {
        ByOne(y);
        ByOne(y / 2);
        OrIsAdd(n - 1, 0, 0, y / 2);
        OrNone(n, y);
      } else {
        OrIsAdd(n - 1, k - 1, x / 2, y);
        TwiceShift(y, k);
        OrHigh(n, x, y * Pow2(k - 1));
      }
    }
  }

  // ---------- reducing operands

  lemma MulSwap(a: int, b: int, c: int)
    ensures a * (b * c) == b * (a * c)
  {
  }

  lemma ModShift(x: int, k: int, m: nat)
    requires m > 0
    ensures (x + k * m) % m == x % m
  {
    assert x + k * m == (x / m + k) * m + x % m;
    ModUnique(x + k * m, m, x / m + k, x % m);
  }

  /** Reducing the operands first does not change a reduced result. */
  lemma ReduceSum(x: int, y: int, m: nat)
    requires m > 0
    ensures (x + y) % m == (x % m + y % m) % m
  {
    ReduceTerm(x, y, m);
    ReduceTerm(y, x % m, m);
  }

  lemma ReduceDifference(x: int, y: int, m: nat)
    requires m > 0
    ensures (x - y) % m == (x % m - y % m) % m
  {
    ReduceTerm(x, -y, m);
    Regroup(x % m, y, y / m, y % m, m);
    ModShift(x % m - y % m, -(y / m), m);
  }

  lemma Regroup(u: int, y: int, q: int, v: int, m: nat)
    requires y == q * m + v
    ensures u - y == (u - v) + (-q) * m
  {
  }

  lemma ReduceTerm(x: int, y: int, m: nat)
    requires m > 0
    ensures (x + y) % m == (x % m + y) % m
  {
    ModShift(x % m + y, x / m, m);
  }

  lemma ReduceFactor(x: int, y: int, m: nat)
    requires m > 0
    ensures (x * y) % m == ((x % m) * y) % m
  {
    var a, u := x / m, x % m;
    assert x * y == u * y + (a * y) * m by {
      assert (a * m + u) * y == (a * m) * y + u * y;
      MulSwap(m, a, y);
    }
    ModShift(u * y, a * y, m);
  }

  lemma Commutes(a: int, b: int)
    ensures a * b == b * a
  {
  }

  lemma ReduceRight(u: int, y: int, m: nat)
    requires m > 0
    ensures (u * y) % m == (u * (y % m)) % m
  {
    ReduceFactor(y, u, m);
    Commutes(u, y);
    Commutes(u, y % m);
  }

  lemma ReduceProduct(x: int, y: int, m: nat)
    requires m > 0
    ensures (x * y) % m == ((x % m) * (y % m)) % m
  {
    ReduceFactor(x, y, m);
    ReduceRight(x % m, y, m);
  }

  // ---------- single bits and 64-bit operations

  function BitAt(x: nat, i: nat): Bit {
    if i == 0 then x % 2 else BitAt(x / 2, i - 1)
  }

  lemma {:induction false} BitOfOp(op: BitOp, k: nat, x: nat, y: nat, i: nat)
    requires i < k
    ensures BitAt(WordBits(op, k, x, y), i) == Combine(op, BitAt(x, i), BitAt(y, i))
    decreases i
  {
    if i > 0 {
      BitOfOp(op, k - 1, x / 2, y / 2, i - 1);
    }
  }

  lemma {:induction false} BitOfShift(x: nat, s: nat, i: nat)
    ensures BitAt(x * Pow2(s), i) == if i < s then 0 else BitAt(x, i - s)
    decreases i
  {
    if s > 0 {
      var half := x * Pow2(s - 1);
      assert x * Pow2(s) == 2 * half;
      if i > 0 {
        BitOfShift(x, s - 1, i - 1);
      }
    } else {
      assert x * Pow2(0) == x;
    }
  }

  lemma {:induction false} BitOfLow(x: nat, k: nat, i: nat)
    requires i < k
    ensures BitAt(x % Pow2(k), i) == BitAt(x, i)
    decreases i
  {
    LowBits(x, Pow2(k - 1));
    if i > 0 {
      BitOfLow(x / 2, k - 1, i - 1);
    }
  }

  lemma {:induction false} BitOfNot(k: nat, x: nat, i: nat)
    requires x < Pow2(k) && i < k
    ensures BitAt(Pow2(k) - 1 - x, i) == 1 - BitAt(x, i)
    decreases i
  {
    if i > 0 {
      assert (Pow2(k) - 1 - x) / 2 == Pow2(k - 1) - 1 - x / 2;
      BitOfNot(k - 1, x / 2, i - 1);
    }
  }

  /** The bits of `(1 << s) - 1`. */
  lemma {:induction false} BitOfOnes(s: nat, i: nat)
    ensures BitAt(Pow2(s) - 1, i) == if i < s then 1 else 0
    decreases i
  {
    if s == 0 {
      BitOfZero(i);
    } else if i > 0 {
      assert (Pow2(s) - 1) / 2 == Pow2(s - 1) - 1;
      BitOfOnes(s - 1, i - 1);
    }
  }

  lemma {:induction false} BitOfZero(i: nat)
    ensures BitAt(0, i) == 0
  {
    if i > 0 {
      BitOfZero(i - 1);
    }
  }

  lemma {:induction false} HighBits(x: nat, k: nat, i: nat)
    requires x < Pow2(k) && k <= i
    ensures BitAt(x, i) == 0
    decreases k
  {
    if k == 0 {
      BitOfZero(i);
    } else {
      HighBits(x / 2, k - 1, i - 1);
    }
  }

  function Op64(op: BitOp, x: nat, y: nat): Word {
    hide Pow2;
    Pow2Word();
    WordBits(op, 64, x, y)
  }

  function And64(x: nat, y: nat): Word {
    Op64(BitAnd, x, y)
  }

  function Or64(x: nat, y: nat): Word {
    Op64(BitOr, x, y)
  }

  function Not64(x: Word): Word {
    WORD - 1 - x
  }

  /** `x << s` in 64 bits. */
  function Shl(x: nat, s: nat): Word {
    (x * Pow2(s)) % WORD
  }

  lemma BitOfAnd64(x: Word, y: Word, i: nat)
    requires i < 64
    ensures BitAt(And64(x, y), i) == if BitAt(x, i) == 1 then BitAt(y, i) else 0
  {
    hide Pow2, WordBits, BitAt;
    BitOfOp(BitAnd, 64, x, y, i);
  }

  lemma BitOfOr64(x: Word, y: Word, i: nat)
    requires i < 64
    ensures BitAt(Or64(x, y), i) == if BitAt(x, i) == 1 then 1 else BitAt(y, i)
  {
    hide Pow2, WordBits, BitAt;
    BitOfOp(BitOr, 64, x, y, i);
  }

  lemma BitOfNot64(x: Word, i: nat)
    requires i < 64
    ensures BitAt(Not64(x), i) == 1 - BitAt(x, i)
  {
    hide Pow2, BitAt;
    Pow2Word();
    BitOfNot(64, x, i);
  }

  lemma BitOfShl(x: nat, s: nat, i: nat)
    requires i < 64
    ensures BitAt(Shl(x, s), i) == if i < s then 0 else BitAt(x, i - s)
  {
    hide Pow2, BitAt;
    Pow2Word();
    BitOfLow(x * Pow2(s), 64, i);
    BitOfShift(x, s, i);
  }
}
