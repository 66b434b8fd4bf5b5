/** Putting a batch of transactions in an order that does not depend on how they arrived: they
    are sorted by their hash, salted with the exclusive or of the hashes of all of them. */
module Sorting {
  import opened Fields
  import ByteSlice

  /** A hash of 32 bytes. */
  type Sum = b: Bytes | |b| == 32 witness seq(32, i => 0)

  type Summer = Bytes -> Sum

  // ---- exclusive or ----

  /** x ^ y on the n low-order bits */
  function Xor(x: nat, y: nat, n: nat): nat {
    if n == 0 then 0 else 2 * Xor(x / 2, y / 2, n - 1) + (x + y) % 2
  }

  lemma {:induction false} XorBound(x: nat, y: nat, n: nat, bound: nat)
    requires bound == ByteSlice.Power(n)
    ensures Xor(x, y, n) < bound
  {
    if n > 0 {
      XorBound(x / 2, y / 2, n - 1, ByteSlice.Power(n - 1));
    }
  }

  lemma {:induction false} XorSwap(a: nat, b: nat, c: nat, n: nat)
    ensures Xor(Xor(a, b, n), c, n) == Xor(Xor(a, c, n), b, n)
  {
    if n > 0 {
      XorSwap(a / 2, b / 2, c / 2, n - 1);
      XorTwice(a, b, c, n);
      XorTwice(a, c, b, n);
    }
  }

  /** The lowest bit and the rest of two exclusive ors. */
  lemma XorTwice(a: nat, b: nat, c: nat, n: nat)
    requires n > 0
    ensures Xor(Xor(a, b, n), c, n) == 2 * Xor(Xor(a / 2, b / 2, n - 1), c / 2, n - 1) + (a + b + c) % 2
  {
    XorHalf(a, b, n);
    Parity(Xor(a, b, n), a, b, c);
  }

  lemma XorHalf(x: nat, y: nat, n: nat)
    requires n > 0
    ensures Xor(x, y, n) / 2 == Xor(x / 2, y / 2, n - 1) && Xor(x, y, n) % 2 == (x + y) % 2
  {
  }

  lemma Parity(x: nat, a: nat, b: nat, c: nat)
    requires x % 2 == (a + b) % 2
    ensures (x + c) % 2 == (a + b + c) % 2
  {
  }

  lemma LowBit(x: nat, y: nat)
    ensures (x + y) % 2 == 1 <==> (x % 2 == 1) != (y % 2 == 1)
  {
  }

  /** Each bit is set in exactly one of the two. */
  lemma {:induction false} XorBits(x: nat, y: nat, n: nat, k: nat)
    requires k < n
    ensures ByteSlice.HasBit(Xor(x, y, n), k) == (ByteSlice.HasBit(x, k) != ByteSlice.HasBit(y, k))
  {
    hide Xor;
    XorHalf(x, y, n);
    if k == 0 {
      LowBit(x, y);
    } else {
      XorBits(x / 2, y / 2, n - 1, k - 1);
    }
  }

  function XorByte(x: byte, y: byte): byte {
    XorBound(x as nat, y as nat, 8, 256);
    Xor(x as nat, y as nat, 8) as byte
  }

  function XorSum(a: Sum, b: Sum): Sum {
    seq(32, i requires 0 <= i < 32 => XorByte(a[i], b[i]))
  }

  lemma XorSumSwap(a: Sum, b: Sum, c: Sum)
    ensures XorSum(XorSum(a, b), c) == XorSum(XorSum(a, c), b)
  {
    forall i | 0 <= i < 32 ensures XorByte(XorByte(a[i], b[i]), c[i]) == XorByte(XorByte(a[i], c[i]), b[i]) {
      XorSwap(a[i] as nat, b[i] as nat, c[i] as nat, 8);
    }
    assert forall i :: 0 <= i < 32 ==> XorSum(XorSum(a, b), c)[i] == XorSum(XorSum(a, c), b)[i];
  }

  // ---- the salt ----

  const ZEROS: Sum := seq(32, i => 0)

  function Salt(h: Summer, ts: seq<Bytes>): Sum {
    if ts == [] then ZEROS else XorSum(Salt(h, ts[..|ts| - 1]), h(ts[|ts| - 1]))
  }

  /** xorTransactions */
  method XorTransactions(h: Summer, ts: seq<Bytes>) returns (result: array<byte>)
    ensures fresh(result) && result[..] == Salt(h, ts)
  {
    result := new byte[32](i => 0);
    assert result[..] == ZEROS;
    for k := 0 to |ts|
      invariant fresh(result) && result.Length == 32 && result[..] == Salt(h, ts[..k])
    {
      var hs := h(ts[k]);
      ghost var before := result[..];
      for i := 0 to 32
        invariant forall j :: 0 <= j < i ==> result[j] == XorByte(before[j], hs[j])
        invariant forall j :: i <= j < 32 ==> result[j] == before[j]
      {
        result[i] := XorByte(result[i], hs[i]);
      }
      assert ts[..k + 1][..k] == ts[..k];
      assert result[..] == XorSum(before, hs);
    }
    assert ts[..|ts|] == ts;
  }

  /** How many of the hashes have the bit set. */
  ghost function Ones(h: Summer, ts: seq<Bytes>, i: nat): nat
    requires i < 256
  {
    if ts == [] then 0 else (if ByteSlice.Bit(h(ts[0]), i) then 1 else 0) + Ones(h, ts[1..], i)
  }

  lemma {:induction false} OnesLast(h: Summer, ts: seq<Bytes>, i: nat)
    requires i < 256 && ts != []
    ensures Ones(h, ts, i) ==
      Ones(h, ts[..|ts| - 1], i) + if ByteSlice.Bit(h(ts[|ts| - 1]), i) then 1 else 0
    decreases |ts|
  {
    if |ts| > 1 {
      OnesLast(h, ts[1..], i);
      assert ts[1..][..|ts| - 2] == ts[..|ts| - 1][1..];
    } else {
      assert ts[1..] == [] && ts[..0] == [];
    }
  }

  lemma ZeroBits(k: nat)
    ensures !ByteSlice.HasBit(0, k)
  {
  }

  /** A bit of the salt is set exactly if it is set in an odd number of the hashes. */
  lemma {:induction false} SaltBits(h: Summer, ts: seq<Bytes>, i: nat)
    requires i < 256
    ensures ByteSlice.Bit(Salt(h, ts), i) <==> Ones(h, ts, i) % 2 == 1
    decreases |ts|
  {
    if ts == [] {
      ZeroBits(7 - i % 8);
    } else {
      var n := |ts| - 1;
      SaltBits(h, ts[..n], i);
      OnesLast(h, ts, i);
      XorBits(Salt(h, ts[..n])[i / 8] as nat, h(ts[n])[i / 8] as nat, 8, 7 - i % 8);
    }
  }

  function Without<T>(ts: seq<T>, i: nat): seq<T>
    requires i < |ts|
  {
    ts[..i] + ts[i + 1..]
  }

  lemma SameLength<T>(xs: seq<T>, ys: seq<T>)
    requires multiset(xs) == multiset(ys)
    ensures |xs| == |ys|
  {
    assert |xs| == |multiset(xs)| == |multiset(ys)| == |ys|;
  }

  /** What one batch has, the other has too, and so do the rests. */
  lemma TakeSame<T>(xs: seq<T>, ys: seq<T>, i: nat) returns (j: nat)
    requires multiset(xs) == multiset(ys) && i < |xs|
    ensures j < |ys| && ys[j] == xs[i] && multiset(Without(xs, i)) == multiset(Without(ys, j))
  {
    assert xs[i] in multiset(ys);
    j :| 0 <= j < |ys| && ys[j] == xs[i];
    WithoutMultiset(xs, i);
    WithoutMultiset(ys, j);
  }

  lemma PutSame<T>(xs: seq<T>, ys: seq<T>, i: nat, j: nat)
    requires i < |xs| && j < |ys| && xs[i] == ys[j] && multiset(Without(xs, i)) == multiset(Without(ys, j))
    ensures multiset(xs) == multiset(ys)
  {
    assert xs == xs[..i] + [xs[i]] + xs[i + 1..];
    assert ys == ys[..j] + [ys[j]] + ys[j + 1..];
    assert multiset(xs) == multiset(Without(xs, i)) + multiset{xs[i]};
    assert multiset(ys) == multiset(Without(ys, j)) + multiset{ys[j]};
  }

  lemma WithoutMultiset<T>(ts: seq<T>, i: nat)
    requires i < |ts|
    ensures multiset(Without(ts, i)) == multiset(ts) - multiset{ts[i]}
  {
    assert ts == ts[..i] + [ts[i]] + ts[i + 1..];
  }

  lemma {:induction false} SaltWithout(h: Summer, ts: seq<Bytes>, i: nat)
    requires i < |ts|
    ensures Salt(h, ts) == XorSum(Salt(h, Without(ts, i)), h(ts[i]))
    decreases |ts|
  {
    var n := |ts| - 1;
    if i < n {
      SaltWithout(h, ts[..n], i);
      assert Without(ts, i)[..n - 1] == Without(ts[..n], i);
      assert Without(ts, i)[n - 1] == ts[n];
      XorSumSwap(Salt(h, Without(ts[..n], i)), h(ts[i]), h(ts[n]));
    } else {
      assert Without(ts, i) == ts[..n];
    }
  }

  /** The salt does not depend on the order. */
  lemma {:induction false} SaltPermutation(h: Summer, xs: seq<Bytes>, ys: seq<Bytes>)
    requires multiset(xs) == multiset(ys)
    ensures Salt(h, xs) == Salt(h, ys)
    decreases |xs|
  {
    SameLength(xs, ys);
    if xs != [] {
      var n := |xs| - 1;
      var i := TakeSame(xs, ys, n);
      assert Without(xs, n) == xs[..n];
      SaltPermutation(h, xs[..n], Without(ys, i));
      SaltWithout(h, ys, i);
    }
  }

  // ---- the order ----

  /** bytes.Compare(a, b) == -1 */
  predicate Less(a: Bytes, b: Bytes)
    decreases |a|
  {
    b != [] && (a == [] || a[0] < b[0] || (a[0] == b[0] && Less(a[1..], b[1..])))
  }

  ghost predicate PrecedesAt(a: Bytes, b: Bytes, n: nat) {
    n <= |a| && n < |b| && a[..n] == b[..n] && (n == |a| || a[n] < b[n])
  }

  /** A proper prefix comes first, and otherwise the smaller byte at the first difference. */
  ghost predicate Precedes(a: Bytes, b: Bytes) {
    exists n: nat :: PrecedesAt(a, b, n)
  }

  lemma {:induction false} LessIs(a: Bytes, b: Bytes)
    ensures Less(a, b) <==> Precedes(a, b)
    decreases |a|
  {
    if b != [] {
      if a != [] && a[0] == b[0] {
        LessIs(a[1..], b[1..]);
        if n: nat :| PrecedesAt(a[1..], b[1..], n) {
          assert a[..n + 1] == [a[0]] + a[1..][..n] && b[..n + 1] == [b[0]] + b[1..][..n];
          assert PrecedesAt(a, b, n + 1);
        }
        if n: nat :| PrecedesAt(a, b, n) {
          assert a[1..][..n - 1] == a[..n][1..] && b[1..][..n - 1] == b[..n][1..];
          assert PrecedesAt(a[1..], b[1..], n - 1);
        }
      } else {
        assert Less(a, b) ==> PrecedesAt(a, b, 0);
        if n: nat :| PrecedesAt(a, b, n) {
          assert n > 0 ==> a[..n][0] == b[..n][0];
        }
      }
    }
  }

  lemma {:induction false} LessTotal(a: Bytes, b: Bytes)
    ensures Less(a, b) || Less(b, a) || a == b
    ensures !(Less(a, b) && Less(b, a)) && (a == b ==> !Less(a, b))
    decreases |a|
  {
    if a != [] && b != [] {
      LessTotal(a[1..], b[1..]);
      if a[0] == b[0] && a[1..] == b[1..] {
        assert a == [a[0]] + a[1..] && b == [b[0]] + b[1..];
      }
    }
  }

  lemma {:induction false} LessTransitive(a: Bytes, b: Bytes, c: Bytes)
    requires !Less(b, a) && !Less(c, b)
    ensures !Less(c, a)
    decreases |a|
  {
    if a != [] && b != [] && c != [] && a[0] == b[0] == c[0] {
      LessTransitive(a[1..], b[1..], c[1..]);
    }
  }

  /** The salted hash of a transaction. */
  function Rank(h: Summer, salt: Bytes, t: Bytes): Sum {
    h(salt + t)
  }

  /** `a` may stand before `b`. */
  ghost predicate NotAfter(h: Summer, salt: Bytes, a: Bytes, b: Bytes) {
    !Less(Rank(h, salt, b), Rank(h, salt, a))
  }

  ghost predicate Ordered(h: Summer, salt: Bytes, ts: seq<Bytes>) {
    forall i, j :: 0 <= i < j < |ts| ==> NotAfter(h, salt, ts[i], ts[j])
  }

  /** sortWithSalt; any sort in place by the salted hashes does, here one by insertion. */
  method SortWithSalt(h: Summer, ts: array<Bytes>, salt: Bytes)
    modifies ts
    ensures Ordered(h, salt, ts[..]) && multiset(ts[..]) == multiset(old(ts[..]))
    ensures forall i, j :: 0 <= i < j < ts.Length ==> !Precedes(h(salt + ts[j]), h(salt + ts[i]))
  {
    for n := 0 to ts.Length
      invariant Ordered(h, salt, ts[..n]) && multiset(ts[..]) == multiset(old(ts[..]))
    {
      Insert(h, ts, salt, n);
    }
    assert ts[..ts.Length] == ts[..];
    OrderedIs(h, salt, ts[..]);
  }

  lemma OrderedIs(h: Summer, salt: Bytes, ts: seq<Bytes>)
    ensures Ordered(h, salt, ts) <==>
      forall i, j :: 0 <= i < j < |ts| ==> !Precedes(h(salt + ts[j]), h(salt + ts[i]))
  {
    forall i, j | 0 <= i < j < |ts|
      ensures NotAfter(h, salt, ts[i], ts[j]) <==> !Precedes(h(salt + ts[j]), h(salt + ts[i]))
    {
      LessIs(h(salt + ts[j]), h(salt + ts[i]));
    }
  }

  function Swapped(ts: seq<Bytes>, j: nat): seq<Bytes>
    requires 0 < j < |ts|
  {
    ts[j := ts[j - 1]][j - 1 := ts[j]]
  }

  lemma SwappedMultiset(ts: seq<Bytes>, j: nat)
    requires 0 < j < |ts|
    ensures multiset(Swapped(ts, j)) == multiset(ts)
  {
  }

  /** The first `n + 1` are in order, save that the one at `j` may have to go further down. */
  ghost predicate Inserting(h: Summer, salt: Bytes, ts: seq<Bytes>, n: nat, j: nat) {
    j <= n < |ts| && forall a, b :: 0 <= a < b <= n && b != j ==> NotAfter(h, salt, ts[a], ts[b])
  }

  lemma InsertStep(h: Summer, salt: Bytes, ts: seq<Bytes>, n: nat, j: nat)
    requires Inserting(h, salt, ts, n, j) && 0 < j && Less(Rank(h, salt, ts[j]), Rank(h, salt, ts[j - 1]))
    ensures Inserting(h, salt, Swapped(ts, j), n, j - 1)
  {
    LessTotal(Rank(h, salt, ts[j]), Rank(h, salt, ts[j - 1]));
    var us := Swapped(ts, j);
    forall a, b | 0 <= a < b <= n && b != j - 1 ensures NotAfter(h, salt, us[a], us[b]) {
      if b == j && a < j - 1 {
        assert NotAfter(h, salt, ts[a], ts[j - 1]);
      } else if b > j {
        assert NotAfter(h, salt, ts[j], ts[b]) && NotAfter(h, salt, ts[j - 1], ts[b])
          && NotAfter(h, salt, ts[a], ts[b]);
      }
    }
  }

  lemma InsertEnds(h: Summer, salt: Bytes, ts: seq<Bytes>, n: nat, j: nat)
    requires Inserting(h, salt, ts, n, j) && (j > 0 ==> NotAfter(h, salt, ts[j - 1], ts[j]))
    ensures Ordered(h, salt, ts[..n + 1])
  {
    forall a | 0 <= a < j ensures NotAfter(h, salt, ts[a], ts[j]) {
      if a < j - 1 {
        assert NotAfter(h, salt, ts[a], ts[j - 1]);
        LessTransitive(Rank(h, salt, ts[a]), Rank(h, salt, ts[j - 1]), Rank(h, salt, ts[j]));
      }
    }
  }

  method Insert(h: Summer, ts: array<Bytes>, salt: Bytes, n: nat)
    requires n < ts.Length && Ordered(h, salt, ts[..n])
    modifies ts
    ensures Ordered(h, salt, ts[..n + 1]) && multiset(ts[..]) == multiset(old(ts[..]))
  {
    hide Less, Rank;
    var j: nat := n;
    while j > 0 && Less(Rank(h, salt, ts[j]), Rank(h, salt, ts[j - 1]))
      invariant multiset(ts[..]) == multiset(old(ts[..])) && Inserting(h, salt, ts[..], n, j)
    {
      SwappedMultiset(ts[..], j);
      InsertStep(h, salt, ts[..], n, j);
      ghost var before := ts[..];
      ts[j], ts[j - 1] := ts[j - 1], ts[j];
      assert ts[..] == Swapped(before, j);
      j := j - 1;
    }
    InsertEnds(h, salt, ts[..], n, j);
    assert ts[..][..n + 1] == ts[..n + 1];
  }

  /** No two of the transactions have the same salted hash. */
  ghost predicate Distinct(h: Summer, salt: Bytes, ts: seq<Bytes>) {
    forall i, j :: 0 <= i < |ts| && 0 <= j < |ts| && Rank(h, salt, ts[i]) == Rank(h, salt, ts[j]) ==> ts[i] == ts[j]
  }

  lemma FirstIsLeast(h: Summer, salt: Bytes, xs: seq<Bytes>, x: Bytes)
    requires Ordered(h, salt, xs) && x in xs
    ensures xs[0] == x || NotAfter(h, salt, xs[0], x)
  {
    var i :| 0 <= i < |xs| && xs[i] == x;
  }

  lemma SameFirst(h: Summer, salt: Bytes, xs: seq<Bytes>, ys: seq<Bytes>)
    requires multiset(xs) == multiset(ys) && Ordered(h, salt, xs) && Ordered(h, salt, ys) && Distinct(h, salt, xs)
    requires xs != [] && ys != []
    ensures xs[0] == ys[0]
  {
    assert xs[0] in multiset(ys) && ys[0] in multiset(xs);
    FirstIsLeast(h, salt, ys, xs[0]);
    FirstIsLeast(h, salt, xs, ys[0]);
    LessTotal(Rank(h, salt, xs[0]), Rank(h, salt, ys[0]));
    var j :| 0 <= j < |xs| && xs[j] == ys[0];
  }

  lemma Tails(h: Summer, salt: Bytes, xs: seq<Bytes>)
    requires xs != [] && Ordered(h, salt, xs)
    ensures Ordered(h, salt, xs[1..]) && (Distinct(h, salt, xs) ==> Distinct(h, salt, xs[1..]))
  {
    hide NotAfter, Rank;
  }

  /** There is only one way to arrange them. */
  lemma {:induction false} OrderUnique(h: Summer, salt: Bytes, xs: seq<Bytes>, ys: seq<Bytes>)
    requires multiset(xs) == multiset(ys) && Ordered(h, salt, xs) && Ordered(h, salt, ys) && Distinct(h, salt, xs)
    ensures xs == ys
    decreases |xs|
  {
    SameLength(xs, ys);
    if xs != [] {
      SameFirst(h, salt, xs, ys);
      TailsSame(xs, ys);
      Tails(h, salt, xs);
      Tails(h, salt, ys);
      OrderUnique(h, salt, xs[1..], ys[1..]);
      assert xs == [xs[0]] + xs[1..] && ys == [ys[0]] + ys[1..];
    }
  }

  lemma TailsSame<T>(xs: seq<T>, ys: seq<T>)
    requires xs != [] && ys != [] && xs[0] == ys[0] && multiset(xs) == multiset(ys)
    ensures multiset(xs[1..]) == multiset(ys[1..])
  {
    WithoutMultiset(xs, 0);
    WithoutMultiset(ys, 0);
    assert Without(xs, 0) == xs[1..] && Without(ys, 0) == ys[1..];
  }

  // ---- whole batches ----

  /** Encoding and decoding of transactions; both may fail. */
  datatype Codec<!T> = Codec(marshal: T -> Option<Bytes>, unmarshal: Bytes -> Option<T>)

  /** What has been encoded decodes to itself. */
  ghost predicate CodecOk<T(!new)>(c: Codec<T>) {
    forall t :: c.marshal(t).Some? ==> c.unmarshal(c.marshal(t).value) == Some(t)
  }

  function MarshalAll<T>(c: Codec<T>, ts: seq<T>): (bs: Option<seq<Bytes>>)
    ensures bs.Some? ==> |bs.value| == |ts| && forall i :: 0 <= i < |ts| ==> c.marshal(ts[i]) == Some(bs.value[i])
    ensures bs.None? ==> exists i :: 0 <= i < |ts| && c.marshal(ts[i]) == None
  {
    if ts == [] then Some([])
    else match (MarshalAll(c, ts[..|ts| - 1]), c.marshal(ts[|ts| - 1]))
      case (Some(bs), Some(b)) => Some(bs + [b])
      case _ => None
  }

  lemma {:induction false} MarshalPermutation<T(!new)>(c: Codec<T>, xs: seq<T>, ys: seq<T>)
    requires multiset(xs) == multiset(ys)
    ensures MarshalAll(c, xs).Some? == MarshalAll(c, ys).Some?
    ensures MarshalAll(c, xs).Some? ==> multiset(MarshalAll(c, xs).value) == multiset(MarshalAll(c, ys).value)
    decreases |xs|
  {
    SameLength(xs, ys);
    if xs != [] {
      var n := |xs| - 1;
      var i := TakeSame(xs, ys, n);
      assert Without(xs, n) == xs[..n];
      MarshalPermutation(c, xs[..n], Without(ys, i));
      MarshalWithout(c, ys, i);
      if MarshalAll(c, xs).Some? {
        LastLast(c, xs);
        assert Without(MarshalAll(c, xs).value, n) == MarshalAll(c, xs[..n]).value;
        PutSame(MarshalAll(c, xs).value, MarshalAll(c, ys).value, n, i);
      }
    }
  }

  lemma LastLast<T>(c: Codec<T>, ts: seq<T>)
    requires ts != [] && MarshalAll(c, ts).Some?
    ensures MarshalAll(c, ts[..|ts| - 1]).Some?
    ensures MarshalAll(c, ts).value == MarshalAll(c, ts[..|ts| - 1]).value + [c.marshal(ts[|ts| - 1]).value]
  {
  }

  lemma {:induction false} MarshalWithout<T(!new)>(c: Codec<T>, ts: seq<T>, i: nat)
    requires i < |ts|
    ensures MarshalAll(c, ts).Some? <==> MarshalAll(c, Without(ts, i)).Some? && c.marshal(ts[i]).Some?
    ensures MarshalAll(c, ts).Some? ==> MarshalAll(c, Without(ts, i)).value == Without(MarshalAll(c, ts).value, i)
    decreases |ts|
  {
    var n := |ts| - 1;
    if i < n {
      MarshalWithout(c, ts[..n], i);
      WithoutInit(ts, i);
      if MarshalAll(c, ts).Some? {
        LastLast(c, ts);
        WithoutSnoc(MarshalAll(c, ts[..n]).value, c.marshal(ts[n]).value, i);
      }
    } else {
      assert Without(ts, i) == ts[..n];
    }
  }

  lemma WithoutInit<T>(ts: seq<T>, i: nat)
    requires i < |ts| - 1
    ensures Without(ts, i)[..|ts| - 2] == Without(ts[..|ts| - 1], i) && Without(ts, i)[|ts| - 2] == ts[|ts| - 1]
  {
  }

  lemma WithoutSnoc<T>(bs: seq<T>, x: T, i: nat)
    requires i < |bs|
    ensures Without(bs + [x], i) == Without(bs, i) + [x]
  {
  }

  predicate AllDecode<T>(c: Codec<T>, bs: seq<Bytes>) {
    forall i :: 0 <= i < |bs| ==> c.unmarshal(bs[i]).Some?
  }

  ghost predicate Decodes<T(!new)>(c: Codec<T>, bs: seq<Bytes>, ts: seq<T>) {
    |ts| == |bs| && forall i :: 0 <= i < |bs| ==> c.unmarshal(bs[i]) == Some(ts[i])
  }

  /** The encodings of `before`, ordered by their salted hashes, are `cs`, and decode to `after`. */
  ghost predicate SortedAs<T(!new)>(c: Codec<T>, h: Summer, before: seq<T>, cs: seq<Bytes>, after: seq<T>) {
    var bs := MarshalAll(c, before);
    && bs.Some? && multiset(cs) == multiset(bs.value) && Ordered(h, Salt(h, bs.value), cs) && Decodes(c, cs, after)
  }

  ghost predicate Sorts<T(!new)>(c: Codec<T>, h: Summer, before: seq<T>, after: seq<T>) {
    exists cs: seq<Bytes> :: SortedAs(c, h, before, cs, after)
  }

  /** sortTransactions: an error, of encoding or of decoding, leaves the slice as it was. */
  method SortTransactions<T(!new, ==)>(c: Codec<T>, h: Summer, ts: array<T>) returns (ok: bool)
    modifies ts
    ensures ok <==> MarshalAll(c, old(ts[..])).Some? && AllDecode(c, MarshalAll(c, old(ts[..])).value)
    ensures if ok then Sorts(c, h, old(ts[..]), ts[..]) else ts[..] == old(ts[..])
  {
    hide AllDecode, Decodes, Ordered, Salt;
    var marshalled := MarshalAll(c, ts[..]);
    if marshalled == None {
      return false;
    }
    var bs := new Bytes[ts.Length](i requires 0 <= i < ts.Length => marshalled.value[i]);
    assert bs[..] == marshalled.value;
    var salt := XorTransactions(h, bs[..]);
    SortWithSalt(h, bs, salt[..]);
    AllDecodePermutation(c, bs[..], marshalled.value);
    var sorted := UnmarshalAll(c, bs[..]);
    if sorted == None {
      return false;
    }
    assert SortedAs(c, h, ts[..], bs[..], sorted.value);
    forall i | 0 <= i < ts.Length {
      ts[i] := sorted.value[i];
    }
    assert ts[..] == sorted.value;
    ok := true;
  }

  lemma AllDecodePermutation<T>(c: Codec<T>, bs: seq<Bytes>, cs: seq<Bytes>)
    requires multiset(bs) == multiset(cs)
    ensures AllDecode(c, bs) <==> AllDecode(c, cs)
  {
    forall b: Bytes ensures b in bs <==> b in cs {
      assert b in bs <==> b in multiset(bs);
      assert b in cs <==> b in multiset(cs);
    }
    assert AllDecode(c, bs) <==> forall b :: b in bs ==> c.unmarshal(b).Some?;
    assert AllDecode(c, cs) <==> forall b :: b in cs ==> c.unmarshal(b).Some?;
  }

  /** The second loop: what has been encoded is decoded, in its new order. */
  method UnmarshalAll<T(!new, ==)>(c: Codec<T>, bs: seq<Bytes>) returns (ts: Option<seq<T>>)
    ensures ts.Some? <==> AllDecode(c, bs)
    ensures ts.Some? ==> Decodes(c, bs, ts.value)
  {
    var done := [];
    for i := 0 to |bs|
      invariant Decodes(c, bs[..i], done)
    {
      var t := c.unmarshal(bs[i]);
      if t == None {
        return None;
      }
      done := done + [t.value];
    }
    assert bs[..|bs|] == bs;
    return Some(done);
  }

  /** If what has been encoded decodes to itself, the slice holds the same transactions as before. */
  lemma SortsSame<T(!new)>(c: Codec<T>, h: Summer, before: seq<T>, cs: seq<Bytes>, after: seq<T>)
    requires CodecOk(c) && SortedAs(c, h, before, cs, after)
    ensures multiset(after) == multiset(before) && MarshalAll(c, after) == Some(cs)
  {
    forall i | 0 <= i < |cs| ensures c.marshal(after[i]) == Some(cs[i]) {
      Encoded(c, cs, before, cs[i]);
    }
    MarshalledAs(c, after, cs);
    SameEncoded(c, after, before);
  }

  lemma Encoded<T(!new)>(c: Codec<T>, cs: seq<Bytes>, before: seq<T>, b: Bytes)
    requires CodecOk(c) && MarshalAll(c, before).Some? && multiset(cs) == multiset(MarshalAll(c, before).value)
      && b in cs
    ensures c.unmarshal(b).Some? && c.marshal(c.unmarshal(b).value) == Some(b)
  {
    assert b in multiset(cs);
    assert b in MarshalAll(c, before).value;
    var i :| 0 <= i < |before| && MarshalAll(c, before).value[i] == b;
    assert c.marshal(before[i]) == Some(b);
  }

  lemma MarshalledAs<T(!new)>(c: Codec<T>, ts: seq<T>, cs: seq<Bytes>)
    requires |cs| == |ts| && forall i :: 0 <= i < |ts| ==> c.marshal(ts[i]) == Some(cs[i])
    ensures MarshalAll(c, ts) == Some(cs)
  {
    var bs := MarshalAll(c, ts);
    if bs.Some? {
      assert bs.value == cs;
    }
  }

  /** Batches with the same encodings have the same transactions. */
  lemma {:induction false} SameEncoded<T(!new)>(c: Codec<T>, xs: seq<T>, ys: seq<T>)
    requires CodecOk(c) && MarshalAll(c, xs).Some? && MarshalAll(c, ys).Some?
    requires multiset(MarshalAll(c, xs).value) == multiset(MarshalAll(c, ys).value)
    ensures multiset(xs) == multiset(ys)
    decreases |xs|
  {
    var bs, cs := MarshalAll(c, xs).value, MarshalAll(c, ys).value;
    SameLength(bs, cs);
    if xs != [] {
      var n := |xs| - 1;
      var i := TakeSame(bs, cs, n);
      SameTransaction(c, xs, ys, n, i);
      MarshalWithout(c, xs, n);
      MarshalWithout(c, ys, i);
      SameEncoded(c, Without(xs, n), Without(ys, i));
      PutSame(xs, ys, n, i);
    }
  }

  lemma SameTransaction<T(!new)>(c: Codec<T>, xs: seq<T>, ys: seq<T>, n: nat, i: nat)
    requires CodecOk(c) && MarshalAll(c, xs).Some? && MarshalAll(c, ys).Some? && n < |xs| && i < |ys|
    requires MarshalAll(c, xs).value[n] == MarshalAll(c, ys).value[i]
    ensures xs[n] == ys[i]
  {
    assert c.marshal(ys[i]) == c.marshal(xs[n]);
  }

  /** Whatever the order in which a batch arrives, it leaves in the same order. */
  lemma OrderIndependent<T(!new)>(c: Codec<T>, h: Summer, xs: seq<T>, ys: seq<T>, xs': seq<T>, ys': seq<T>)
    requires multiset(xs) == multiset(ys) && Sorts(c, h, xs, xs') && Sorts(c, h, ys, ys')
    requires Distinct(h, Salt(h, MarshalAll(c, xs).value), MarshalAll(c, xs).value)
    ensures xs' == ys'
  {
    MarshalPermutation(c, xs, ys);
    var bs, ds := MarshalAll(c, xs).value, MarshalAll(c, ys).value;
    var cs :| SortedAs(c, h, xs, cs, xs');
    var es :| SortedAs(c, h, ys, es, ys');
    SaltPermutation(h, bs, ds);
    DistinctPermutation(h, Salt(h, bs), bs, cs);
    OrderUnique(h, Salt(h, bs), cs, es);
    forall i | 0 <= i < |xs'| ensures xs'[i] == ys'[i] {
      assert c.unmarshal(cs[i]) == c.unmarshal(es[i]);
    }
  }

  lemma DistinctPermutation(h: Summer, salt: Bytes, bs: seq<Bytes>, cs: seq<Bytes>)
    requires Distinct(h, salt, bs) && multiset(cs) == multiset(bs)
    ensures Distinct(h, salt, cs)
  {
    forall b | b in cs ensures b in bs {
      assert b in multiset(cs);
    }
    forall i, j | 0 <= i < |cs| && 0 <= j < |cs| && Rank(h, salt, cs[i]) == Rank(h, salt, cs[j])
      ensures cs[i] == cs[j]
    {
      assert cs[i] in cs && cs[j] in cs;
    }
  }
}
