/** Bytes, and big-endian integers in two's complement. */
module BigEndian {
  type Byte = x: int | 0 <= x < 256
  type Bytes = seq<Byte>

  const TWO_31 := 0x8000_0000
  const TWO_32 := 0x1_0000_0000
  const TWO_63 := 0x8000_0000_0000_0000

  function Pow256(n: nat): (p: nat)
    ensures p >= 1
  {
    if n == 0 then 1 else 256 * Pow256(n - 1)
  }

  /** Byte number `k` of the two's complement of `v`, counted from the least significant. */
  function Digit(v: int, k: nat): Byte
    decreases k
  {
    if k == 0 then v % 256 else Digit(v / 256, k - 1)
  }

  /** The last `n` bytes of the two's complement of `v`, most significant first. */
  function Put(v: int, n: nat): (bs: Bytes)
    ensures |bs| == n
  {
    seq(n, i requires 0 <= i < n => Digit(v, n - 1 - i))
  }

  /** The number that the first `n` bytes spell. */
  function GetFirst(bs: Bytes, n: nat): nat
    requires n <= |bs|
  {
    if n == 0 then 0 else 256 * GetFirst(bs, n - 1) + bs[n - 1]
  }

  function Get(bs: Bytes): nat {
    GetFirst(bs, |bs|)
  }

  /** The signed reading of an unsigned number below `2 * half`. */
  function Signed(u: int, half: nat): int {
    if u < half then u else u - 2 * half
  }

  /** The Go conversion of an integer to int32. */
  function Wrap32(v: int): (w: int)
    ensures -TWO_31 <= w < TWO_31
  {
    Signed(v % TWO_32, TWO_31)
  }

  lemma {:induction false} GetBound(bs: Bytes, n: nat)
    requires n <= |bs|
    ensures GetFirst(bs, n) < Pow256(n)
    decreases n
  {
    if n > 0 {
      GetBound(bs, n - 1);
    }
  }

  /** The leading bytes are those of the number shifted right. */
  lemma {:induction false} GetFirstPut(v: nat, n: nat, bs: Bytes)
    requires n <= |bs| && v < Pow256(n) && forall i :: 0 <= i < n ==> bs[i] == Digit(v, n - 1 - i)
    ensures GetFirst(bs, n) == v
    decreases n
  {
    if n > 0 {
      assert bs[n - 1] == Digit(v, 0);
      forall i | 0 <= i < n - 1
        ensures bs[i] == Digit(v / 256, n - 2 - i)
      {
        assert bs[i] == Digit(v, n - 1 - i);
      }
      GetFirstPut(v / 256, n - 1, bs);
    }
  }

  lemma GetPut(v: nat, n: nat)
    requires v < Pow256(n)
    ensures Get(Put(v, n)) == v
  {
    GetFirstPut(v, n, Put(v, n));
  }

  /** Adding a multiple of 256^n does not change the last n bytes. */
  lemma {:induction false} DigitPeriodic(v: int, n: nat, k: nat)
    requires k < n
    ensures Digit(v + Pow256(n), k) == Digit(v, k)
    decreases k
  {
    assert (v + Pow256(n)) % 256 == v % 256;
    if k > 0 {
      assert (v + Pow256(n)) / 256 == v / 256 + Pow256(n - 1);
      DigitPeriodic(v / 256, n - 1, k - 1);
    }
  }

  lemma PutPeriodic(v: int, n: nat)
    ensures Put(v + Pow256(n), n) == Put(v, n)
  {
    forall i | 0 <= i < n
      ensures Put(v + Pow256(n), n)[i] == Put(v, n)[i]
    {
      DigitPeriodic(v, n, n - 1 - i);
    }
  }

  /** Every integer in range comes back, whatever its sign. */
  lemma SignedRoundTrip(v: int, n: nat, half: nat)
    requires 2 * half == Pow256(n) && 0 <= v + half && v < half
    ensures Signed(Get(Put(v, n)), half) == v
  {
    if v >= 0 {
      GetPut(v, n);
    } else {
      PutPeriodic(v, n);
      GetPut(v + 2 * half, n);
    }
  }

  /** The four bytes of an unsigned number, most significant first. */
  lemma FourBytes(v: nat)
    requires v < TWO_32
    ensures Put(v, 4) == [v / 16777216, v / 65536 % 256, v / 256 % 256, v % 256]
  {
    var bs := Put(v, 4);
    assert bs[0] == Digit(v, 3) == Digit(v / 256 / 256 / 256, 0);
    assert bs[1] == Digit(v, 2) == Digit(v / 256 / 256, 0);
    assert bs[2] == Digit(v, 1) == Digit(v / 256, 0);
    assert bs[3] == Digit(v, 0);
    assert v / 256 / 256 == v / 65536 && v / 256 / 256 / 256 == v / 16777216 < 256;
  }

  lemma Widths()
    ensures Pow256(4) == TWO_32 && Pow256(8) == 2 * TWO_63
  {
    assert Pow256(4) == 256 * 256 * 256 * 256 * Pow256(0);
    assert Pow256(8) == 256 * 256 * 256 * 256 * Pow256(4);
  }
}
