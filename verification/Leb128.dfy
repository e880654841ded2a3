/** Signed LEB128 numbers (section 7.6 of DWARF Version 5) decoded into 64-bit two's
    complement. */
module Leb128 {
  import opened Words
  import opened Bits

  const MAX_BYTES: nat := 10

  /** The integer a bit pattern stands for. */
  function Signed(w: Word): int {
    if w < Pow2(63) then w else w - WORD
  }

  // ---------- the format

  /** Is `bytes` one number: continuation bits on all bytes but the last? */
  predicate IsNumber(bytes: seq<Byte>) {
    bytes != [] && if bytes[0] < 128 then |bytes| == 1 else IsNumber(bytes[1..])
  }

  /** Its value: seven bits a byte, the last byte signed. */
  function Value(bytes: seq<Byte>): int
    requires IsNumber(bytes)
  {
    if bytes[0] < 64 then bytes[0]
    else if bytes[0] < 128 then bytes[0] - 128
    else bytes[0] - 128 + 128 * Value(bytes[1..])
  }

  /** The shortest encoding of an integer. */
  function Encode(v: int): (bytes: seq<Byte>)
    ensures IsNumber(bytes)
    decreases if v < 0 then -v else v
  {
    if -64 <= v < 64 then [v % 128] else [v % 128 + 128] + Encode(v / 128)
  }

  lemma {:induction false} ValueOfEncode(v: int)
    ensures Value(Encode(v)) == v
    decreases if v < 0 then -v else v
  {
    if !(-64 <= v < 64) {
      ValueOfEncode(v / 128);
      assert Encode(v)[1..] == Encode(v / 128);
    }
  }

  function Bound(k: nat): (b: nat)
    ensures b >= 64
  {
    if k <= 1 then 64 else 128 * Bound(k - 1)
  }

  lemma {:induction false} EncodeLength(v: int, k: nat)
    requires k >= 1 && -(Bound(k) as int) <= v < Bound(k)
    ensures |Encode(v)| <= k
    decreases k
  {
    if !(-64 <= v < 64) {
      EncodeLength(v / 128, k - 1);
    }
  }

  // ---------- the decoder

  /** The seven-bit groups of the first bytes without the sign. */
  function Low(bytes: seq<Byte>): nat
    decreases |bytes|
  {
    if bytes == [] then 0
    else Low(bytes[..|bytes| - 1]) + (bytes[|bytes| - 1] % 128) * Pow2(7 * (|bytes| - 1))
  }

  lemma {:induction false} LowBound(bytes: seq<Byte>)
    ensures Low(bytes) < Pow2(7 * |bytes|)
    decreases |bytes|
  {
    if bytes != [] {
      var n := |bytes| - 1;
      LowBound(bytes[..n]);
      Pow2Add(7, 7 * n);
      assert Pow2(7) == 128;
      GroupFits(bytes[n] % 128, Pow2(7 * n));
    }
  }

  lemma Pow2Seven()
    ensures Pow2(7) == 128 && Pow2(1) == 2
  {
    assert Pow2(7) == 128;
  }

  lemma GroupFits(g: nat, p: nat)
    requires g < 128
    ensures g * p + p <= 128 * p
  {
    assert (g + 1) * p <= 128 * p;
  }

  /** All bytes so far ask for another one. */
  predicate Continues(bytes: seq<Byte>) {
    forall i :: 0 <= i < |bytes| ==> bytes[i] >= 128
  }

  /** Cutting the number at its last byte. */
  lemma {:induction false} ValueFromLow(bytes: seq<Byte>, last: Byte)
    requires Continues(bytes) && last < 128
    ensures IsNumber(bytes + [last])
    ensures Value(bytes + [last]) == Low(bytes) + (if last < 64 then last as int else last - 128) * Pow2(7 * |bytes|)
    decreases |bytes|
  {
    if bytes != [] {
      var tail := bytes[1..];
      assert (bytes + [last])[1..] == tail + [last];
      ValueFromLow(tail, last);
      LowFromFront(bytes);
      Pow2Add(7, 7 * |tail|);
      assert Pow2(7) == 128;
      MulSwap(128, if last < 64 then last as int else last - 128, Pow2(7 * |tail|));
    }
  }

  lemma {:induction false} LowFromFront(bytes: seq<Byte>)
    requires bytes != []
    ensures Low(bytes) == bytes[0] % 128 + 128 * Low(bytes[1..])
    decreases |bytes|
  {
    var n := |bytes| - 1;
    if n == 0 {
      assert Low(bytes[..0]) == 0;
    } else {
      LowFromFront(bytes[..n]);
      assert bytes[..n][1..] == bytes[1..][..n - 1];
      Pow2Add(7, 7 * (n - 1));
      assert Pow2(7) == 128;
      MulSwap(128, bytes[n] % 128, Pow2(7 * (n - 1)));
    }
  }

  // ---------- shifts in a 64-bit word

  lemma ModTimes(g: nat, m: nat, p: nat)
    requires m > 0 && p > 0
    ensures m * p > 0 && (g * p) % (m * p) == (g % m) * p
  {
    assert m * p > 0;
    var q, r := g / m, g % m;
    assert g * p == q * (m * p) + r * p by {
      assert g * p == (q * m + r) * p == (q * m) * p + r * p;
      assert (q * m) * p == q * (m * p);
    }
    assert r * p + p <= m * p by {
      assert (r + 1) * p <= m * p;
    }
    ModUnique(g * p, m * p, q, r * p);
  }

  /** `result |= (group << shift)` when `result` holds only the bits below `shift`. */
  lemma OrShifted(result: nat, g: nat, shift: nat)
    requires shift < 64 && result < Pow2(shift)
    ensures Or64(result, Shl(g, shift)) == result + Shl(g, shift)
  {
    hide Pow2;
    hide WordBits;
    Pow2Word();
    Pow2Add(64 - shift, shift);
    ModTimes(g, Pow2(64 - shift), Pow2(shift));
    OrIsAdd(64, shift, result, g % Pow2(64 - shift));
    assert ((g % Pow2(64 - shift)) * Pow2(shift)) % WORD == (g * Pow2(shift)) % WORD;
  }

  /** `-1 << shift` as a bit pattern. */
  function SignBits(shift: nat): Word
    requires shift < 64
  {
    Pow2Word();
    Pow2Add(64 - shift, shift);
    assert Pow2(shift) <= Pow2(64 - shift) * Pow2(shift);
    WORD - Pow2(shift)
  }

  lemma SignBitsFactor(shift: nat)
    requires shift < 64
    ensures SignBits(shift) == (Pow2(64 - shift) - 1) * Pow2(shift)
  {
    hide Pow2;
    Pow2Word();
    Pow2Add(64 - shift, shift);
  }

  /** `result |= -1 << shift` subtracts 2^shift. */
  lemma OrSign(result: nat, shift: nat)
    requires shift < 64 && result < Pow2(shift)
    ensures Or64(result, SignBits(shift)) == (result - Pow2(shift)) % WORD
  {
    hide Pow2, WordBits;
    SignBitsFactor(shift);
    OrIsAdd(64, shift, result, Pow2(64 - shift) - 1);
    Pow2Word();
    ModUnique(result - Pow2(shift), WORD, -1, result + SignBits(shift));
  }

  lemma {:induction false} Pow2Mono(a: nat, b: nat)
    requires a <= b
    ensures Pow2(a) <= Pow2(b)
  {
    if a < b {
      Pow2Mono(a, b - 1);
    }
  }

  lemma ShlExact(g: nat, shift: nat)
    requires g < 128 && shift + 7 <= 64
    ensures Shl(g, shift) == g * Pow2(shift)
  {
    hide Pow2;
    GroupFits(g, Pow2(shift));
    Pow2Add(7, shift);
    Pow2Seven();
    Pow2Mono(shift + 7, 64);
    Pow2Word();
  }

  /** A full group below bit 63 is added as it is. */
  lemma GroupAdds(front: seq<Byte>, b: Byte)
    requires |front| <= 8
    ensures Low(front + [b]) == Low(front) + (b % 128) * Pow2(7 * |front|)
    ensures Or64(Low(front), Shl(b % 128, 7 * |front|)) == Low(front + [b])
  {
    hide Pow2, WordBits, Shl;
    LowBound(front);
    OrShifted(Low(front), b % 128, 7 * |front|);
    ShlExact(b % 128, 7 * |front|);
    assert (front + [b])[..|front|] == front;
  }

  /** The sign of the last byte above bit `shift`. */
  function SignExtended(result: Word, shift: nat, last: Byte): Word {
    if shift < 64 && last >= 64 then Or64(result, SignBits(shift)) else result
  }

  /** What the decoder holds after the byte that ends the number. */
  function Finished(low: nat, shift: nat, last: Byte): Word
    requires shift < 64
  {
    Pow2Word();
    SignExtended(Or64(low, Shl(last, shift)), shift + 7, last)
  }

  /** The number a terminating byte completes. */
  function Ended(low: nat, shift: nat, last: Byte): int {
    low + (if last < 64 then last as int else last - 128) * Pow2(shift)
  }

  lemma FinishedIsValue(front: seq<Byte>, last: Byte)
    requires |front| < MAX_BYTES && Continues(front) && last < 128
    ensures IsNumber(front + [last])
    ensures Finished(Low(front), 7 * |front|, last) == Value(front + [last]) % WORD
  {
    hide Pow2, WordBits, Shl, Finished, Low, Value;
    ValueFromLow(front, last);
    LowBound(front);
    if |front| <= 8 {
      GroupAdds(front, last);
      LowBound(front + [last]);
      EndsLow(Low(front), 7 * |front|, last, Low(front + [last]));
    } else {
      EndsHigh(Low(front), last);
    }
  }

  lemma EndsLow(low: nat, shift: nat, last: Byte, sum: nat)
    requires last < 128 && shift + 7 < 64
    requires sum == low + last * Pow2(shift) < Pow2(shift + 7)
    requires Or64(low, Shl(last, shift)) == sum
    ensures Finished(low, shift, last) == Ended(low, shift, last) % WORD
  {
    hide Pow2, WordBits, Shl;
    if last >= 64 {
      OrSign(sum, shift + 7);
      Pow2Add(7, shift);
      Pow2Seven();
      assert (last - 128) * Pow2(shift) == last * Pow2(shift) - 128 * Pow2(shift);
    } else {
      Pow2Mono(shift + 7, 64);
      Pow2Word();
    }
  }

  /** Of the tenth group only the lowest bit fits, whatever its sign. */
  lemma EndsHigh(low: nat, last: Byte)
    requires last < 128 && low < Pow2(63)
    ensures Finished(low, 63, last) == Ended(low, 63, last) % WORD
  {
    hide Pow2, WordBits;
    OrShifted(low, last, 63);
    var p := Pow2(63);
    ReduceTerm(last * p, low, WORD);
    ModUnique(Finished(low, 63, last), WORD, 0, Finished(low, 63, last));
    if last >= 64 {
      Pow2Add(1, 63);
      Pow2Seven();
      Pow2Word();
      assert (last - 128) * p == last * p - 64 * WORD;
      ModShift(low + (last - 128) * p, 64, WORD);
    }
  }

  // ---------- the decoder against the format

  /** How many bytes lead up to the first one that ends a number. */
  function Leading(bytes: seq<Byte>): (n: nat)
    ensures n <= |bytes| && Continues(bytes[..n])
    ensures n < |bytes| ==> bytes[n] < 128
  {
    if bytes == [] || bytes[0] < 128 then 0
    else
      var n := 1 + Leading(bytes[1..]);
      assert forall i :: 1 <= i < n ==> bytes[i] == bytes[1..][..n - 1][i - 1];
      n
  }

  lemma NumberAt(bytes: seq<Byte>, n: nat)
    requires n < |bytes| && Continues(bytes[..n]) && bytes[n] < 128
    ensures IsNumber(bytes[..n + 1])
  {
    assert bytes[..n + 1] == bytes[..n] + [bytes[n]];
    ValueFromLow(bytes[..n], bytes[n]);
  }

  /** The number at the front of the bytes, reduced to 64 bits, and its length. */
  ghost function Decoded(bytes: seq<Byte>): Option<(int, nat)> {
    var n := Leading(bytes);
    if n < |bytes| && n < MAX_BYTES then
      NumberAt(bytes, n);
      Some((Signed(Value(bytes[..n + 1]) % WORD), n + 1))
    else
      None
  }

  lemma {:induction false} LeadingIs(bytes: seq<Byte>, n: nat)
    requires n <= |bytes| && Continues(bytes[..n])
    ensures n < |bytes| && bytes[n] < 128 ==> Leading(bytes) == n
    ensures Leading(bytes) >= n
  {
    var k := Leading(bytes);
    assert n < k ==> bytes[..k][n] >= 128;
    assert forall i :: 0 <= i < n ==> bytes[..n][i] >= 128;
  }

  /** A byte that ends the number among the first ten settles the result. */
  lemma DecodedAt(bytes: seq<Byte>, i: nat)
    requires i < |bytes| && i < MAX_BYTES && Continues(bytes[..i]) && bytes[i] < 128
    ensures Decoded(bytes) == Some((Signed(Finished(Low(bytes[..i]), 7 * i, bytes[i])), i + 1))
  {
    hide Pow2, WordBits, Low, Value, IsNumber, Signed, Finished;
    assert bytes[..i + 1] == bytes[..i] + [bytes[i]];
    LeadingIs(bytes, i);
    FinishedIsValue(bytes[..i], bytes[i]);
  }

  lemma ByteContinues(bytes: seq<Byte>, i: nat)
    requires i < |bytes| && i <= 8 && Continues(bytes[..i]) && bytes[i] >= 128
    ensures Continues(bytes[..i + 1])
    ensures Low(bytes[..i + 1]) == Or64(Low(bytes[..i]), Shl(bytes[i] % 128, 7 * i))
  {
    hide Low, Or64, Shl;
    assert bytes[..i + 1] == bytes[..i] + [bytes[i]];
    GroupAdds(bytes[..i], bytes[i]);
  }

  lemma NotDecoded(bytes: seq<Byte>, i: nat)
    requires i <= |bytes| && Continues(bytes[..i]) && (i == |bytes| || i >= MAX_BYTES)
    ensures Decoded(bytes) == None
  {
    LeadingIs(bytes, i);
  }

  /** `low` holds the groups of the first `i` bytes, none of which ends the number. */
  ghost predicate Read(bytes: seq<Byte>, i: nat, low: nat) {
    i <= |bytes| && i < MAX_BYTES && Continues(bytes[..i]) && low == Low(bytes[..i])
  }

  lemma ReadNone(bytes: seq<Byte>)
    ensures Read(bytes, 0, 0)
  {
    assert bytes[..0] == [];
  }

  lemma ReadLast(bytes: seq<Byte>, i: nat, low: nat)
    requires Read(bytes, i, low) && i < |bytes| && bytes[i] < 128
    ensures Decoded(bytes)
         == Some((Signed(SignExtended(Or64(low, Shl(bytes[i] % 128, 7 * i)), 7 * i + 7, bytes[i])), i + 1))
  {
    hide Decoded, Continues, Low, Or64, Shl, SignExtended;
    DecodedAt(bytes, i);
  }

  lemma ReadOn(bytes: seq<Byte>, i: nat, low: nat)
    requires Read(bytes, i, low) && i < |bytes| && bytes[i] >= 128
    ensures i <= 8 ==> Read(bytes, i + 1, Or64(low, Shl(bytes[i] % 128, 7 * i)))
    ensures i > 8 ==> Decoded(bytes) == None
  {
    hide Decoded, Low, Or64, Shl;
    if i <= 8 {
      ByteContinues(bytes, i);
    } else {
      assert Continues(bytes[..i + 1]) by { assert bytes[..i + 1] == bytes[..i] + [bytes[i]]; }
      NotDecoded(bytes, i + 1);
    }
  }

  lemma ReadAll(bytes: seq<Byte>, low: nat)
    requires Read(bytes, |bytes|, low)
    ensures Decoded(bytes) == None
  {
    hide Decoded, Low;
    NotDecoded(bytes, |bytes|);
  }

  method DecodeSleb128(bytes: seq<Byte>) returns (decoded: Option<(int, nat)>)
    ensures decoded == Decoded(bytes)
  {
    hide Read, Decoded, Or64, Shl, Signed, SignExtended;
    ReadNone(bytes);
    var result: Word, shift, i := 0, 0, 0;
    while i < |bytes|
      invariant i <= |bytes| && shift == 7 * i && Read(bytes, i, result)
    {
      var b := bytes[i];
      ghost var low := result;
      result := Or64(result, Shl(b % 128, shift));
      shift := shift + 7;
      if b < 128 {
        result := SignExtended(result, shift, b);
        ReadLast(bytes, i, low);
        return Some((Signed(result), i + 1));
      }
      ReadOn(bytes, i, low);
      if shift >= 64 { return None; }
      i := i + 1;
    }
    ReadAll(bytes, result);
    decoded := None;
  }

  /** Nothing is decoded exactly when none of the first ten bytes ends a number. */
  lemma NothingIff(bytes: seq<Byte>)
    ensures Decoded(bytes) == None <==>
      forall i :: 0 <= i < |bytes| && i < MAX_BYTES ==> bytes[i] >= 128
  {
    var n := Leading(bytes);
    if Decoded(bytes) == None {
      forall i | 0 <= i < |bytes| && i < MAX_BYTES ensures bytes[i] >= 128 {
        assert bytes[..n][i] >= 128;
      }
    }
  }

  lemma {:induction false} NumberShape(bytes: seq<Byte>)
    requires IsNumber(bytes)
    ensures bytes != [] && bytes[|bytes| - 1] < 128 && Continues(bytes[..|bytes| - 1])
  {
    if bytes[0] >= 128 {
      NumberShape(bytes[1..]);
      assert forall i :: 1 <= i < |bytes| - 1 ==> bytes[i] == bytes[1..][..|bytes| - 2][i - 1];
    }
  }

  lemma EncodeFits(v: int)
    requires -(Pow2(63) as int) <= v < Pow2(63)
    ensures |Encode(v)| <= MAX_BYTES
  {
    hide Pow2, Bound;
    BoundIs(MAX_BYTES);
    Pow2Mono(63, 7 * MAX_BYTES - 1);
    EncodeLength(v, MAX_BYTES);
  }

  lemma SignedOfWord(v: int)
    requires -(Pow2(63) as int) <= v < Pow2(63)
    ensures Signed(v % WORD) == v
  {
    hide Pow2;
    Pow2Word();
    Pow2Add(1, 63);
    Pow2Seven();
    ModUnique(v, WORD, if v < 0 then -1 else 0, if v < 0 then v + WORD else v);
  }

  /** Every 64-bit integer comes back from its encoding, whatever follows it. */
  lemma RoundTrip(v: int, rest: seq<Byte>)
    requires -(Pow2(63) as int) <= v < Pow2(63)
    ensures Decoded(Encode(v) + rest) == Some((v, |Encode(v)|))
  {
    hide Pow2, Value, Encode, IsNumber, Leading, Signed;
    var code := Encode(v);
    var bytes, n := code + rest, |code| - 1;
    ValueOfEncode(v);
    NumberShape(code);
    EncodeFits(v);
    assert bytes[..n] == code[..n] && bytes[..n + 1] == code;
    LeadingIs(bytes, n);
    SignedOfWord(v);
  }

  lemma {:induction false} BoundIs(k: nat)
    requires k >= 1
    ensures Bound(k) == Pow2(7 * k - 1)
  {
    if k > 1 {
      BoundIs(k - 1);
      Pow2Add(7, 7 * (k - 1) - 1);
      Pow2Seven();
    } else {
      assert Pow2(6) == 64;
    }
  }

  // ---------- location expressions

  datatype VarLocation = FrameOffset(offset: int) | Addr(addr: Word)

  const FBREG: Byte := 0x91
  const ADDR: Byte := 0x03

  method ParseLocationExpr(bytes: seq<Byte>) returns (loc: Option<VarLocation>)
    ensures loc == LocationOf(bytes)
  {
    if bytes == [] {
      return None;
    }
    if bytes[0] == FBREG {
      var off := DecodeSleb128(bytes[1..]);
      match off {
        case Some(pair) => loc := Some(FrameOffset(pair.0));
        case None => loc := None;
      }
    } else if bytes[0] == ADDR {
      if |bytes| < 9 {
        return None;
      }
      loc := Some(Addr(WordFromLe(bytes[1..9])));
    } else {
      loc := None;
    }
  }

  ghost function LocationOf(bytes: seq<Byte>): Option<VarLocation> {
    if bytes == [] then None
    else if bytes[0] == 0x91 then
      match Decoded(bytes[1..])
      case Some(pair) => Some(FrameOffset(pair.0))
      case None => None
    else if bytes[0] == 0x03 && |bytes| >= 9 then Some(Addr(WordFromLe(bytes[1..9])))
    else None
  }

  /** A frame offset written by a compiler is read back, with any operands after it. */
  lemma OffsetRoundTrip(v: int, rest: seq<Byte>)
    requires -(Pow2(63) as int) <= v < Pow2(63)
    ensures LocationOf([0x91] + Encode(v) + rest) == Some(FrameOffset(v))
  {
    hide Pow2;
    hide WordBits;
    var bytes := [0x91] + Encode(v) + rest;
    assert bytes[1..] == Encode(v) + rest;
    RoundTrip(v, rest);
  }
}
