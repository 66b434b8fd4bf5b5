/** Operations on slices of bytes, bit by bit: bit 0 is the highest bit of the first byte. */
module ByteSlice {
  import opened Fields

  /** x & (1 << k) != 0 */
  predicate HasBit(x: nat, k: nat) {
    if k == 0 then x % 2 == 1 else HasBit(x / 2, k - 1)
  }

  /** x | (1 << k) if the bit is to be set, x &^ (1 << k) otherwise. */
  function WithBit(x: nat, k: nat, v: bool): nat {
    if k == 0 then x / 2 * 2 + (if v then 1 else 0) else 2 * WithBit(x / 2, k - 1, v) + x % 2
  }

  predicate Bit(b: Bytes, i: nat)
    requires i < 8 * |b|
  {
    HasBit(b[i / 8] as nat, 7 - i % 8)
  }

  function Weight(b: bool, w: nat): nat {
    if b then w else 0
  }

  /** The sum of the weights of the bits below bit `n`. */
  function LowValue(x: nat, n: nat): nat {
    if n == 0 then 0 else LowValue(x, n - 1) + Weight(HasBit(x, n - 1), Power(n - 1))
  }

  lemma {:induction false} LowDouble(x: nat, n: nat)
    ensures LowValue(x, n + 1) == 2 * LowValue(x / 2, n) + x % 2
  {
    if n == 0 {
      assert LowValue(x, 1) == Weight(HasBit(x, 0), 1);
    } else {
      LowDouble(x, n - 1);
      assert HasBit(x, n) == HasBit(x / 2, n - 1);
    }
  }

  /** A number is the sum of the weights of its bits. */
  lemma {:induction false} LowIs(x: nat, n: nat)
    requires x < Power(n)
    ensures x == LowValue(x, n)
  {
    if n > 0 {
      LowIs(x / 2, n - 1);
      LowDouble(x, n - 1);
    }
  }

  lemma Powers()
    ensures Power(0) == 1 && Power(1) == 2 && Power(2) == 4 && Power(3) == 8 && Power(4) == 16
    ensures Power(5) == 32 && Power(6) == 64 && Power(7) == 128 && Power(8) == 256
  {
    assert Power(3) == 2 * Power(2) && Power(5) == 2 * Power(4) && Power(7) == 2 * Power(6);
  }

  /** Within a byte the first bit weighs most. */
  lemma ByteValue(b: Bytes, j: nat)
    requires j < |b|
    ensures b[j] as nat == Weight(Bit(b, 8 * j), 128) + Weight(Bit(b, 8 * j + 1), 64) + Weight(Bit(b, 8 * j + 2), 32)
      + Weight(Bit(b, 8 * j + 3), 16) + Weight(Bit(b, 8 * j + 4), 8) + Weight(Bit(b, 8 * j + 5), 4)
      + Weight(Bit(b, 8 * j + 6), 2) + Weight(Bit(b, 8 * j + 7), 1)
  {
    hide HasBit, Weight, Bit, LowValue, Power;
    var x := b[j] as nat;
    Powers();
    LowIs(x, 8);
    EightBits(x);
    BitAt(b, j, 0);
    BitAt(b, j, 1);
    BitAt(b, j, 2);
    BitAt(b, j, 3);
    BitAt(b, j, 4);
    BitAt(b, j, 5);
    BitAt(b, j, 6);
    BitAt(b, j, 7);
  }

  lemma BitAt(b: Bytes, j: nat, i: nat)
    requires j < |b| && i < 8
    ensures Bit(b, 8 * j + i) == HasBit(b[j] as nat, 7 - i)
  {
  }

  lemma EightBits(x: nat)
    ensures LowValue(x, 8) == Weight(HasBit(x, 7), Power(7)) + Weight(HasBit(x, 6), Power(6))
      + Weight(HasBit(x, 5), Power(5)) + Weight(HasBit(x, 4), Power(4)) + Weight(HasBit(x, 3), Power(3))
      + Weight(HasBit(x, 2), Power(2)) + Weight(HasBit(x, 1), Power(1)) + Weight(HasBit(x, 0), Power(0))
  {
    hide HasBit, Weight, Power;
    LowStep(x, 0);
    LowStep(x, 1);
    LowStep(x, 2);
    LowStep(x, 3);
    LowStep(x, 4);
    LowStep(x, 5);
    LowStep(x, 6);
    LowStep(x, 7);
  }

  lemma LowStep(x: nat, n: nat)
    ensures LowValue(x, n + 1) == LowValue(x, n) + Weight(HasBit(x, n), Power(n)) && LowValue(x, 0) == 0
  {
  }

  lemma {:induction false} WithBitBits(x: nat, k: nat, v: bool, j: nat)
    ensures HasBit(WithBit(x, k, v), j) == if j == k then v else HasBit(x, j)
  {
    if k > 0 && j > 0 {
      assert WithBit(x, k, v) / 2 == WithBit(x / 2, k - 1, v);
      WithBitBits(x / 2, k - 1, v, j - 1);
    }
  }

  lemma {:induction false} WithBitBound(x: nat, k: nat, v: bool, n: nat, bound: nat)
    requires k < n && x < bound && bound == Power(n)
    ensures WithBit(x, k, v) < bound
  {
    if k > 0 {
      WithBitBound(x / 2, k - 1, v, n - 1, Power(n - 1));
    }
  }

  function Power(n: nat): nat {
    if n == 0 then 1 else 2 * Power(n - 1)
  }

  function ByteWithBit(x: byte, k: nat, v: bool): byte
    requires k < 8
  {
    WithBitBound(x as nat, k, v, 8, 256);
    WithBit(x as nat, k, v) as byte
  }

  function Assign(b: Bytes, i: nat, v: bool): Bytes
    requires i < 8 * |b|
  {
    b[i / 8 := ByteWithBit(b[i / 8], 7 - i % 8, v)]
  }

  /** Assigning one bit sets that bit and leaves the others. */
  lemma AssignBit(b: Bytes, i: nat, v: bool, j: nat)
    requires i < 8 * |b| && j < 8 * |b|
    ensures |Assign(b, i, v)| == |b|
    ensures Bit(Assign(b, i, v), j) == if i == j then v else Bit(b, j)
  {
    if i / 8 == j / 8 {
      WithBitBits(b[i / 8] as nat, 7 - i % 8, v, 7 - j % 8);
    }
  }

  method SetBit(buffer: array<byte>, i: nat, v: bool)
    requires i < 8 * buffer.Length
    modifies buffer
    ensures buffer[..] == Assign(old(buffer[..]), i, v)
  {
    buffer[i / 8] := ByteWithBit(buffer[i / 8], 7 - i % 8, v);
  }

  method Equal(a: Bytes, b: Bytes) returns (same: bool)
    ensures same <==> a == b
  {
    if |a| != |b| {
      return false;
    }
    for i := 0 to |a|
      invariant a[..i] == b[..i]
    {
      if a[i] != b[i] {
        return false;
      }
    }
    return true;
  }

  ghost predicate SameBits(a: Bytes, b: Bytes, bits: nat)
    requires bits <= 8 * |a| && bits <= 8 * |b|
  {
    forall i :: 0 <= i < bits ==> Bit(a, i) == Bit(b, i)
  }

  /** Numbers below 2^n with the same n low bits are equal. */
  lemma {:induction false} BitsDetermine(x: nat, y: nat, n: nat)
    requires x < Power(n) && y < Power(n) && forall k :: 0 <= k < n ==> HasBit(x, k) == HasBit(y, k)
    ensures x == y
  {
    if n > 0 {
      assert HasBit(x, 0) == HasBit(y, 0);
      forall k | 0 <= k < n - 1 ensures HasBit(x / 2, k) == HasBit(y / 2, k) {
        assert HasBit(x, k + 1) == HasBit(y, k + 1);
      }
      BitsDetermine(x / 2, y / 2, n - 1);
    }
  }

  lemma SameByte(a: Bytes, b: Bytes, i: nat)
    requires i + 8 <= 8 * |a| && i + 8 <= 8 * |b| && i % 8 == 0
    ensures (forall j :: i <= j < i + 8 ==> Bit(a, j) == Bit(b, j)) <==> a[i / 8] == b[i / 8]
  {
    if forall j :: i <= j < i + 8 ==> Bit(a, j) == Bit(b, j) {
      var x, y := a[i / 8] as nat, b[i / 8] as nat;
      forall k | 0 <= k < 8 ensures HasBit(x, k) == HasBit(y, k) {
        assert Bit(a, i + 7 - k) == Bit(b, i + 7 - k);
      }
      BitsDetermine(x, y, 8);
    }
  }

  /** Comparing whole bytes first and single bits at the end compares the first `bits` bits. */
  method Match(a: Bytes, b: Bytes, bits: nat) returns (same: bool)
    requires bits <= 8 * |a| && bits <= 8 * |b|
    ensures same <==> SameBits(a, b, bits)
  {
    var i: nat := 0;
    while i < bits
      invariant i <= bits
      invariant i % 8 == 0 || i >= bits - 8
      invariant SameBits(a, b, i)
    {
      if i < bits - 8 {
        SameByte(a, b, i);
        if a[i / 8] != b[i / 8] {
          return false;
        }
        i := i + 8;
      } else {
        if Bit(a, i) != Bit(b, i) {
          return false;
        }
        i := i + 1;
      }
    }
    return true;
  }
}
