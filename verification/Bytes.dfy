/** Machine integers, little-endian fields inside byte blocks, and single-bit
    updates of a byte, as the file system's C structures lay them out. */
module Bytes {

  type byte = b: int | 0 <= b < 256
  type uint16 = w: int | 0 <= w < 0x1_0000
  type uint32 = w: int | 0 <= w < 0x1_0000_0000
  type short = s: int | -0x8000 <= s < 0x8000

  const WORD := 0x1_0000_0000

  // --- little-endian fields ---------------------------------------------

  function GetHalf(b: seq<byte>, at: nat): uint16
    requires at + 2 <= |b|
  {
    b[at] as int + 256 * b[at + 1] as int
  }

  function PutHalf(b: seq<byte>, at: nat, w: uint16): (r: seq<byte>)
    requires at + 2 <= |b|
    ensures |r| == |b| && GetHalf(r, at) == w
    ensures forall k | 0 <= k < |b| && !(at <= k < at + 2) :: r[k] == b[k]
  {
    b[at := w % 256][at + 1 := w / 256]
  }

  function GetWord(b: seq<byte>, at: nat): uint32
    requires at + 4 <= |b|
  {
    b[at] as int + 256 * b[at + 1] as int + 65536 * b[at + 2] as int + 16777216 * b[at + 3] as int
  }

  function PutWord(b: seq<byte>, at: nat, w: uint32): (r: seq<byte>)
    requires at + 4 <= |b|
    ensures |r| == |b| && GetWord(r, at) == w
    ensures forall k | 0 <= k < |b| && !(at <= k < at + 4) :: r[k] == b[k]
  {
    WordDigits(w);
    b[at := w % 256][at + 1 := w / 256 % 256][at + 2 := w / 65536 % 256][at + 3 := w / 16777216]
  }

  lemma WordDigits(w: uint32)
    ensures w % 256 + 256 * (w / 256 % 256) + 65536 * (w / 65536 % 256) + 16777216 * (w / 16777216) == w
    ensures w / 16777216 < 256
  {
    assert w / 65536 == w / 256 / 256 && w / 16777216 == w / 65536 / 256;
  }

  function GetShort(b: seq<byte>, at: nat): short
    requires at + 2 <= |b|
  {
    var w := GetHalf(b, at);
    if w < 0x8000 then w else w - 0x1_0000
  }

  function PutShort(b: seq<byte>, at: nat, s: short): (r: seq<byte>)
    requires at + 2 <= |b|
    ensures |r| == |b| && GetShort(r, at) == s
    ensures forall k | 0 <= k < |b| && !(at <= k < at + 2) :: r[k] == b[k]
  {
    PutHalf(b, at, if s < 0 then s + 0x1_0000 else s)
  }

  // --- bits of a byte ------------------------------------------------------

  /** (x & (1 << k)) != 0 */
  predicate TestBit(x: nat, k: nat) {
    if k == 0 then x % 2 == 1 else TestBit(x / 2, k - 1)
  }

  /** x | (1 << k) */
  function SetBit(x: nat, k: nat): nat {
    if k == 0 then x / 2 * 2 + 1 else x % 2 + 2 * SetBit(x / 2, k - 1)
  }

  /** x & ~(1 << k) */
  function ClearBit(x: nat, k: nat): nat {
    if k == 0 then x / 2 * 2 else x % 2 + 2 * ClearBit(x / 2, k - 1)
  }

  function Pow2(n: nat): nat {
    if n == 0 then 1 else 2 * Pow2(n - 1)
  }

  /** The bit of weight 2^k. */
  lemma {:induction false} TestBitWeight(x: nat, k: nat)
    ensures Pow2(k) > 0 && (TestBit(x, k) <==> x / Pow2(k) % 2 == 1)
    decreases k
  {
    if k > 0 {
      TestBitWeight(x / 2, k - 1);
      DivTwice(x, Pow2(k - 1));
    }
  }

  lemma DivTwice(x: nat, n: nat)
    requires n > 0
    ensures x / 2 / n == x / (2 * n)
  {
    var q, r := x / (2 * n), x % (2 * n);
    assert x == q * (2 * n) + r;
    assert x / 2 == q * n + r / 2;
    assert r / 2 < n;
    DivBy(x / 2, n, q, r / 2);
  }

  lemma DivBy(x: nat, n: nat, q: nat, r: nat)
    requires x == q * n + r && r < n
    ensures x / n == q
  {
    var p := x / n;
    assert x == p * n + x % n;
    if p > q {
      AtLeastOnce(p - q, n);
    } else if q > p {
      AtLeastOnce(q - p, n);
    }
  }

  lemma AtLeastOnce(k: nat, n: nat)
    requires k > 0
    ensures k * n >= n
  {
    assert k * n == n + (k - 1) * n;
  }

  lemma HalfOf(low: nat, n: nat)
    requires low < 2
    ensures (low + 2 * n) / 2 == n && (low + 2 * n) % 2 == low
  {
  }

  /** OR with one mask bit turns exactly that bit on, and stays within the byte. */
  lemma {:induction false} SetBitExact(x: nat, k: nat, j: nat)
    ensures TestBit(SetBit(x, k), j) <==> j == k || TestBit(x, j)
  {
    if j > 0 {
      if k > 0 {
        SetBitExact(x / 2, k - 1, j - 1);
        HalfOf(x % 2, SetBit(x / 2, k - 1));
      } else {
        HalfOf(1, x / 2);
      }
    }
  }

  lemma {:induction false} ClearBitExact(x: nat, k: nat, j: nat)
    ensures TestBit(ClearBit(x, k), j) <==> j != k && TestBit(x, j)
  {
    if j > 0 {
      if k > 0 {
        ClearBitExact(x / 2, k - 1, j - 1);
        HalfOf(x % 2, ClearBit(x / 2, k - 1));
      } else {
        HalfOf(0, x / 2);
      }
    }
  }

  /** Clearing undoes setting, on a bit that was off. */
  lemma {:induction false} ClearUndoesSet(x: nat, k: nat)
    requires !TestBit(x, k)
    ensures ClearBit(SetBit(x, k), k) == x
  {
    if k > 0 {
      ClearUndoesSet(x / 2, k - 1);
      assert SetBit(x, k) / 2 == SetBit(x / 2, k - 1);
    }
  }

  lemma {:induction false} BitsFit(x: nat, k: nat, n: nat)
    requires k < n && x < Pow2(n)
    ensures SetBit(x, k) < Pow2(n) && ClearBit(x, k) < Pow2(n)
  {
    if k > 0 {
      BitsFit(x / 2, k - 1, n - 1);
    }
  }

  lemma ByteBitsFit(x: byte, k: nat)
    requires k < 8
    ensures SetBit(x, k) < 256 && ClearBit(x, k) < 256
  {
    assert Pow2(8) == 256;
    BitsFit(x, k, 8);
  }
}
