/** The field types of a collection: how a value is stored as bytes, what a placeholder
    stores, and how the value of an internal node is computed from its two children. */
module Fields {

  newtype byte = x: int | 0 <= x < 256

  type Bytes = seq<byte>

  const TWO_64: nat := 0x1_0000_0000_0000_0000

  datatype Option<+T> = None | Some(value: T)

  datatype Field = Data | Stake64

  /** A value as the caller passes it. The two field types accept one form each. */
  datatype Value = Raw(bytes: Bytes) | Stake(amount: nat)

  // ---- big-endian integers ----

  function ToBytes(n: nat, width: nat): (b: Bytes)
    ensures |b| == width
  {
    if width == 0 then [] else ToBytes(n / 256, width - 1) + [(n % 256) as byte]
  }

  function FromBytes(b: Bytes): nat
  {
    if |b| == 0 then 0 else FromBytes(b[..|b| - 1]) * 256 + b[|b| - 1] as nat
  }

  function Pow256(k: nat): (r: nat)
    ensures 0 < r
  {
    if k == 0 then 1 else 256 * Pow256(k - 1)
  }

  /** Writing and reading back keeps the low-order bytes. */
  lemma {:induction false} RoundTrip(n: nat, width: nat)
    ensures FromBytes(ToBytes(n, width)) == n % Pow256(width)
  {
    if width > 0 {
      RoundTrip(n / 256, width - 1);
      FromBytesSnoc(ToBytes(n / 256, width - 1), (n % 256) as byte);
      ModSplit(n, Pow256(width - 1));
    }
  }

  lemma FromBytesSnoc(b: Bytes, x: byte)
    ensures FromBytes(b + [x]) == FromBytes(b) * 256 + x as nat
  {
    assert (b + [x])[..|b|] == b;
  }

  lemma ModSplit(n: nat, m: nat)
    requires 0 < m
    ensures 0 < 256 * m && n % (256 * m) == (n / 256) % m * 256 + n % 256
  {
    var a, b := n / 256, n % 256;
    var q, r := a / m, a % m;
    assert a == q * m + r;
    assert n == a * 256 + b;
    calc {
      n;
      (q * m + r) * 256 + b;
      (256 * m) * q + (r * 256 + b);
    }
    assert 0 <= r * 256 + b < 256 * m;
    DivModUnique(n, 256 * m, q, r * 256 + b);
  }

  lemma DivModUnique(n: nat, m: int, q: nat, r: nat)
    requires r < m && n == m * q + r
    ensures n % m == r
  {
    var d := n / m - q;
    assert m * d == r - n % m by {
      assert m * d == m * (n / m) - m * q;
    }
    Multiples(m, d);
  }

  lemma Multiples(m: int, d: int)
    requires 0 < m
    ensures 1 <= d ==> m <= m * d
    ensures d <= -1 ==> m * d <= -m
  {
    if 1 <= d {
      assert m * d == m + m * (d - 1);
      assert 0 <= m * (d - 1);
    }
    if d <= -1 {
      assert m * d == -m - m * (-1 - d);
      assert 0 <= m * (-1 - d);
    }
  }

  lemma {:induction false} FromBytesBound(b: Bytes)
    ensures FromBytes(b) < Pow256(|b|)
  {
    if |b| > 0 {
      FromBytesBound(b[..|b| - 1]);
    }
  }

  lemma Pow256Of8()
    ensures Pow256(8) == TWO_64
  {
    assert Pow256(4) == 0x1_0000_0000 by {
      assert Pow256(2) == 65536;
    }
    assert Pow256(6) == 256 * (256 * Pow256(4));
  }

  lemma RoundTrip64(n: nat)
    requires n < TWO_64
    ensures FromBytes(ToBytes(n, 8)) == n
  {
    var width := 8;
    RoundTrip(n, width);
    Pow256Of8();
  }

  lemma DivDiv(n: nat, m: nat)
    requires 0 < m
    ensures 0 < 256 * m && n / 256 / m == n / (256 * m)
  {
    ModSplit(n, m);
    var a, q := n / 256, n / 256 / m;
    assert n == 256 * a + n % 256 && a == m * q + a % m;
    assert n == (256 * m) * q + (a % m * 256 + n % 256) by {
      assert 256 * (m * q) == (256 * m) * q;
    }
    assert n == (256 * m) * (n / (256 * m)) + n % (256 * m);
    SameQuotient(256 * m, q, n / (256 * m));
  }

  lemma SameQuotient(m: nat, q: nat, r: nat)
    requires 0 < m && m * q == m * r
    ensures q == r
  {
    assert m * (q - r) == 0;
    Multiples(m, q - r);
  }

  /** The most significant byte comes first. */
  lemma {:induction false} BigEndian(n: nat, width: nat, i: nat)
    requires i < width
    ensures ToBytes(n, width)[i] as nat == n / Pow256(width - 1 - i) % 256
    decreases width
  {
    if i < width - 1 {
      BigEndian(n / 256, width - 1, i);
      DivDiv(n, Pow256(width - 2 - i));
    }
  }

  /** Reading and writing back gives the same bytes. */
  lemma {:induction false} BackTrip(b: Bytes)
    ensures ToBytes(FromBytes(b), |b|) == b
    decreases |b|
  {
    if b != [] {
      BackTrip(b[..|b| - 1]);
      assert b == b[..|b| - 1] + [b[|b| - 1]];
    }
  }

  // ---- the two field types ----

  predicate Admits(f: Field, v: Value) {
    match f
    case Data => v.Raw?
    case Stake64 => v.Stake? && v.amount < TWO_64
  }

  function Encode(f: Field, v: Value): Bytes
    requires Admits(f, v)
  {
    match f
    case Data => v.bytes
    case Stake64 => ToBytes(v.amount, 8)
  }

  function Decode(f: Field, raw: Bytes): Option<Value> {
    match f
    case Data => Some(Raw(raw))
    case Stake64 => if |raw| != 8 then None else Some(Stake(FromBytes(raw)))
  }

  function Placeholder(f: Field): Bytes {
    match f
    case Data => []
    case Stake64 => ToBytes(0, 8)
  }

  /** The value of an internal node; None is the error return. The sum wraps at 2^64. */
  function Parent(f: Field, left: Bytes, right: Bytes): Option<Bytes> {
    match f
    case Data => Some([])
    case Stake64 =>
      if |left| != 8 || |right| != 8 then None
      else Some(ToBytes((FromBytes(left) + FromBytes(right)) % TWO_64, 8))
  }

  predicate WellFormed(f: Field, raw: Bytes) {
    match f
    case Data => true
    case Stake64 => |raw| == 8
  }

  /** Decode inverts Encode on every value the field accepts. */
  lemma DecodeEncode(f: Field, v: Value)
    requires Admits(f, v)
    ensures WellFormed(f, Encode(f, v)) && Decode(f, Encode(f, v)) == Some(v)
  {
    if f.Stake64? {
      RoundTrip64(v.amount);
    }
  }

  /** Data is stored as it is, an amount as 8 bytes, the most significant first. */
  lemma EncodeBytes(f: Field, v: Value)
    requires Admits(f, v)
    ensures f.Data? ==> Encode(f, v) == v.bytes
    ensures f.Stake64? ==> |Encode(f, v)| == 8 && forall i :: 0 <= i < 8 ==>
      Encode(f, v)[i] as nat == v.amount / Pow256(7 - i) % 256
  {
    if f.Stake64? {
      forall i | 0 <= i < 8 ensures Encode(f, v)[i] as nat == v.amount / Pow256(7 - i) % 256 {
        BigEndian(v.amount, 8, i);
      }
    }
  }

  /** Reading never fails on data, and on an amount exactly if it is not 8 bytes long; the amount read
      is the one those bytes stand for. */
  lemma DecodeBytes(f: Field, raw: Bytes)
    ensures f.Data? ==> Decode(f, raw) == Some(Raw(raw))
    ensures f.Stake64? ==> (Decode(f, raw) == None <==> |raw| != 8)
    ensures f.Stake64? && |raw| == 8 ==>
      Decode(f, raw).value.Stake? && Admits(f, Decode(f, raw).value) && Encode(f, Decode(f, raw).value) == raw
  {
    if f.Stake64? && |raw| == 8 {
      FromBytesBound(raw);
      Pow256Of8();
      BackTrip(raw);
    }
  }

  /** Placeholders, and internal nodes as far as data go, hold nothing. */
  lemma EmptyValues(left: Bytes, right: Bytes)
    ensures Placeholder(Data) == [] && Parent(Data, left, right) == Some([])
    ensures Placeholder(Stake64) == [0, 0, 0, 0, 0, 0, 0, 0]
    ensures Parent(Stake64, left, right) == None <==> |left| != 8 || |right| != 8
  {
    var n := 0;
    assert ToBytes(n, 1) == [0] && ToBytes(n, 2) == [0, 0] && ToBytes(n, 3) == [0, 0, 0];
    assert ToBytes(n, 4) == [0, 0, 0, 0] && ToBytes(n, 5) == [0, 0, 0, 0, 0];
    assert ToBytes(n, 6) == [0, 0, 0, 0, 0, 0] && ToBytes(n, 7) == [0, 0, 0, 0, 0, 0, 0];
  }

  /** The stake of an internal node is the sum of the stakes of its children modulo 2^64,
      and a placeholder weighs nothing. */
  lemma ParentStake(left: Bytes, right: Bytes)
    requires |left| == 8 && |right| == 8
    ensures Parent(Stake64, left, right).Some?
    ensures FromBytes(Parent(Stake64, left, right).value) == (FromBytes(left) + FromBytes(right)) % TWO_64
    ensures FromBytes(Placeholder(Stake64)) == 0
  {
    RoundTrip64((FromBytes(left) + FromBytes(right)) % TWO_64);
    RoundTrip64(0);
  }

  datatype Direction = Error | Go(right: bool, query: Bytes)

  /** Where a query goes from an internal node, and what is left of it there. */
  function Navigate(f: Field, query: Bytes, parent: Bytes, left: Bytes): Direction {
    if f.Data? || |query| != 8 || |parent| != 8 then Error
    else if FromBytes(query) >= FromBytes(parent) then Error
    else if |left| != 8 then Error
    else if FromBytes(query) >= FromBytes(left) then Go(true, ToBytes(FromBytes(query) - FromBytes(left), 8))
    else Go(false, query)
  }

  // ---- all the fields of a collection at once ----

  ghost predicate ValuesOk(fs: seq<Field>, vs: seq<Bytes>) {
    |vs| == |fs| && forall i :: 0 <= i < |fs| ==> WellFormed(fs[i], vs[i])
  }

  function Placeholders(fs: seq<Field>): (vs: seq<Bytes>)
    ensures ValuesOk(fs, vs)
  {
    seq(|fs|, i requires 0 <= i < |fs| => Placeholder(fs[i]))
  }

  function ParentValues(fs: seq<Field>, l: seq<Bytes>, r: seq<Bytes>): (vs: seq<Bytes>)
    requires ValuesOk(fs, l) && ValuesOk(fs, r)
    ensures ValuesOk(fs, vs)
  {
    seq(|fs|, i requires 0 <= i < |fs| => Parent(fs[i], l[i], r[i]).value)
  }

  ghost predicate AdmitsAll(fs: seq<Field>, vs: seq<Value>) {
    |vs| == |fs| && forall i :: 0 <= i < |fs| ==> Admits(fs[i], vs[i])
  }

  function EncodeAll(fs: seq<Field>, vs: seq<Value>): (raw: seq<Bytes>)
    requires AdmitsAll(fs, vs)
    ensures ValuesOk(fs, raw)
  {
    forall i | 0 <= i < |fs| ensures WellFormed(fs[i], Encode(fs[i], vs[i])) {
      DecodeEncode(fs[i], vs[i]);
    }
    seq(|fs|, i requires 0 <= i < |fs| => Encode(fs[i], vs[i]))
  }

  /** The arguments of Set; None stands for Same. */
  ghost predicate AdmitsSome(fs: seq<Field>, vs: seq<Option<Value>>) {
    |vs| == |fs| && forall i :: 0 <= i < |fs| && vs[i].Some? ==> Admits(fs[i], vs[i].value)
  }

  function EncodeSome(fs: seq<Field>, vs: seq<Option<Value>>): (change: seq<Option<Bytes>>)
    requires AdmitsSome(fs, vs)
    ensures |change| == |fs| && forall i :: 0 <= i < |fs| && change[i].Some? ==> WellFormed(fs[i], change[i].value)
  {
    forall i | 0 <= i < |fs| && vs[i].Some? ensures WellFormed(fs[i], Encode(fs[i], vs[i].value)) {
      DecodeEncode(fs[i], vs[i].value);
    }
    seq(|fs|, i requires 0 <= i < |fs| => if vs[i].Some? then Some(Encode(fs[i], vs[i].value)) else None)
  }
}
