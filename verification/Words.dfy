/** Machine words, bytes and the two result shapes shared by the other modules. */
module Words {

  datatype Option<+T> = None | Some(value: T) {
    function GetOr(default: T): T {
      match this
      case Some(v) => v
      case None => default
    }
  }

  /** 2^64: addresses and registers are unsigned 64-bit and wrap around. */
  const WORD: nat := 0x1_0000_0000_0000_0000

  type Word = w: nat | w < WORD
  type Byte = b: nat | b < 256

  /** `a.wrapping_add(1)`: where a CPU leaves the PC after a one-byte trap. */
  function Inc(a: Word): Word {
    if a + 1 == WORD then 0 else a + 1
  }

  /** `a.wrapping_sub(1)`: how the debugger gets back from there. */
  function Dec(a: Word): Word {
    if a == 0 then WORD - 1 else a - 1
  }

  function Plus(a: Word, n: nat): Word {
    (a + n) % WORD
  }

  /** `u64::from_le_bytes` on any number of bytes. */
  function FromLe(bytes: seq<Byte>): nat {
    if bytes == [] then 0 else bytes[0] + 256 * FromLe(bytes[1..])
  }

  function Pow256(n: nat): (p: nat)
    ensures p > 0
  {
    if n == 0 then 1 else 256 * Pow256(n - 1)
  }

  lemma {:induction false} FromLeBound(bytes: seq<Byte>)
    ensures FromLe(bytes) < Pow256(|bytes|)
  {
    if bytes != [] {
      FromLeBound(bytes[1..]);
    }
  }

  lemma {:induction false} ZeroBytes(bytes: seq<Byte>)
    requires forall i :: 0 <= i < |bytes| ==> bytes[i] == 0
    ensures FromLe(bytes) == 0
  {
    if bytes != [] {
      ZeroBytes(bytes[1..]);
    }
  }

  function WordFromLe(bytes: seq<Byte>): Word
    requires |bytes| == 8
  {
    FromLeBound(bytes);
    assert Pow256(8) == WORD;
    FromLe(bytes)
  }

  /** A word with only its first byte set is that byte. */
  lemma SmallWord(bytes: seq<Byte>)
    requires |bytes| == 8 && forall i :: 0 < i < 8 ==> bytes[i] == 0
    ensures WordFromLe(bytes) == bytes[0]
  {
    assert forall i :: 0 <= i < 7 ==> bytes[1..][i] == bytes[i + 1];
    ZeroBytes(bytes[1..]);
  }
}
