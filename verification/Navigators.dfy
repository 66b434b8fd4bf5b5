/** Finding a leaf by stake: each leaf answers as many queries as it has stake. */
module Navigators {
  import opened Fields
  import opened Trie
  import opened Mapping
  import opened Canonical

  datatype Landing = UnknownNode | BadQuery | Landed(leaf: NodeData, query: Bytes)

  /** The loop of the navigator from node `t` on. */
  ghost function NavigateAt(fs: seq<Field>, i: nat, t: Tree, query: Bytes): Landing
    requires i < |fs| && Settled(fs, t)
    decreases t
  {
    if !t.d.known then UnknownNode
    else match t
      case Leaf(d) => Landed(d, query)
      case Inner(d, l, r) =>
        if !l.d.known || !r.d.known then UnknownNode
        else match Navigate(fs[i], query, d.values[i], l.d.values[i])
          case Error => BadQuery
          case Go(right, rest) => NavigateAt(fs, i, if right then r else l, rest)
  }

  /** From an internal node whose children are known there is no way on for a field of data, nor for
      a query that is not 8 bytes long. */
  lemma NavigateRefuses(fs: seq<Field>, i: nat, t: Tree, query: Bytes)
    requires i < |fs| && Settled(fs, t) && t.Inner? && t.left.d.known && t.right.d.known
    requires fs[i].Data? || |query| != 8
    ensures NavigateAt(fs, i, t, query) == BadQuery
  {
  }

  /** The leaves from left to right, placeholders included. */
  ghost function Leaves(t: Tree): seq<NodeData> {
    match t
    case Leaf(d) => [d]
    case Inner(_, l, r) => Leaves(l) + Leaves(r)
  }

  ghost function StakeOf(d: NodeData, i: nat): nat {
    if i < |d.values| then FromBytes(d.values[i]) else 0
  }

  /** The stake of the first `n` leaves. */
  ghost function Before(ds: seq<NodeData>, i: nat, n: nat): nat
    requires n <= |ds|
  {
    if n == 0 then 0 else Before(ds, i, n - 1) + StakeOf(ds[n - 1], i)
  }

  ghost function Total(t: Tree, i: nat): nat {
    Before(Leaves(t), i, |Leaves(t)|)
  }

  lemma {:induction false} BeforeConcat(a: seq<NodeData>, b: seq<NodeData>, i: nat, n: nat)
    requires n <= |a| + |b|
    ensures Before(a + b, i, n) ==
      if n <= |a| then Before(a, i, n) else Before(a, i, |a|) + Before(b, i, n - |a|)
    decreases n
  {
    if n > 0 {
      BeforeConcat(a, b, i, n - 1);
    }
  }

  lemma {:induction false} BeforeMonotone(ds: seq<NodeData>, i: nat, m: nat, n: nat)
    requires m <= n <= |ds|
    ensures Before(ds, i, m) <= Before(ds, i, n)
    decreases n
  {
    if m < n {
      BeforeMonotone(ds, i, m, n - 1);
    }
  }

  lemma TotalInner(t: Tree, i: nat)
    requires t.Inner?
    ensures Total(t, i) == Total(t.left, i) + Total(t.right, i)
  {
    BeforeConcat(Leaves(t.left), Leaves(t.right), i, |Leaves(t)|);
  }

  /** The node shows the stake below it. */
  ghost predicate Shows(t: Tree, i: nat) {
    i < |t.d.values| && |t.d.values[i]| == 8 && FromBytes(t.d.values[i]) == Total(t, i)
  }

  /** As long as the total does not overflow, every node shows the stake below it. */
  lemma {:induction false} StakeIsTotal(fs: seq<Field>, i: nat, t: Tree)
    requires i < |fs| && fs[i].Stake64? && Settled(fs, t) && FullyKnown(t) && Total(t, i) < TWO_64
    ensures Shows(t, i)
  {
    SettledValues(fs, t);
    assert WellFormed(fs[i], t.d.values[i]);
    if t.Leaf? {
      assert Before([t.d], i, 1) == Before([t.d], i, 0) + StakeOf(t.d, i);
    } else {
      TotalInner(t, i);
      StakeIsTotal(fs, i, t.left);
      StakeIsTotal(fs, i, t.right);
      ShowsParent(fs, i, t);
    }
  }

  lemma ShowsParent(fs: seq<Field>, i: nat, t: Tree)
    requires i < |fs| && fs[i].Stake64? && t.Inner? && Shows(t.left, i) && Shows(t.right, i)
    requires Aggregates(fs, t.d.values, t.left.d.values, t.right.d.values)
    requires Total(t, i) == Total(t.left, i) + Total(t.right, i) < TWO_64
    ensures Shows(t, i)
  {
    var l, r := t.left.d.values, t.right.d.values;
    assert t.d.values[i] == Parent(fs[i], l[i], r[i]).value;
    ParentStake(l[i], r[i]);
  }

  /** The leaf that owns query `q`: the one whose interval of prefix sums contains it. */
  ghost predicate Owns(t: Tree, i: nat, n: nat, q: nat) {
    n < |Leaves(t)| && Before(Leaves(t), i, n) <= q < Before(Leaves(t), i, n + 1)
  }

  /** What is left of a query `q` after a turn at an internal node. */
  function Rest(query: Bytes, q: nat, left: nat): Bytes {
    if q >= left then ToBytes(q - left, 8) else query
  }

  /** The turn a query below the total takes at an internal node. */
  lemma Turn(fs: seq<Field>, i: nat, t: Tree, query: Bytes, q: nat, left: nat)
    requires i < |fs| && fs[i].Stake64? && t.Inner? && Settled(fs, t) && FullyKnown(t)
    requires Shows(t, i) && Shows(t.left, i)
    requires |query| == 8 && q == FromBytes(query) && q < Total(t, i) && left == Total(t.left, i)
    ensures NavigateAt(fs, i, t, query) == NavigateAt(fs, i, Child(t, q >= left), Rest(query, q, left))
  {
    hide FromBytes, ToBytes, Navigate, Total, ValuesOk, ParentValues;
    if q >= left {
      TurnRight(query, t.d.values[i], t.left.d.values[i], q, Total(t, i), left);
    } else {
      TurnLeft(query, t.d.values[i], t.left.d.values[i], q, Total(t, i), left);
    }
  }

  lemma TurnLeft(query: Bytes, parent: Bytes, left: Bytes, q: nat, p: nat, l: nat)
    requires |query| == |parent| == |left| == 8
    requires q == FromBytes(query) && p == FromBytes(parent) && l == FromBytes(left) && q < p && q < l
    ensures Navigate(Stake64, query, parent, left) == Go(false, query)
  {
  }

  lemma TurnRight(query: Bytes, parent: Bytes, left: Bytes, q: nat, p: nat, l: nat)
    requires |query| == |parent| == |left| == 8
    requires q == FromBytes(query) && p == FromBytes(parent) && l == FromBytes(left) && l <= q < p
    ensures Navigate(Stake64, query, parent, left) == Go(true, ToBytes(q - l, 8))
  {
  }

  /** An owner on one side owns the corresponding query at the parent. */
  lemma OwnsInner(t: Tree, i: nat, right: bool, m: nat, q: nat) returns (n: nat)
    requires t.Inner? && Owns(Child(t, right), i, m, q)
    ensures n == m + if right then |Leaves(t.left)| else 0
    ensures Owns(t, i, n, q + if right then Total(t.left, i) else 0)
    ensures Leaves(t)[n] == Leaves(Child(t, right))[m]
    ensures Before(Leaves(t), i, n) == Before(Leaves(Child(t, right)), i, m) + if right then Total(t.left, i) else 0
  {
    n := m + if right then |Leaves(t.left)| else 0;
    BeforeConcat(Leaves(t.left), Leaves(t.right), i, n);
    BeforeConcat(Leaves(t.left), Leaves(t.right), i, n + 1);
  }

  lemma {:induction false} NavigateLands(fs: seq<Field>, i: nat, t: Tree, query: Bytes) returns (n: nat)
    requires i < |fs| && fs[i].Stake64? && Settled(fs, t) && FullyKnown(t) && Total(t, i) < TWO_64
    requires |query| == 8 && FromBytes(query) < Total(t, i)
    ensures Owns(t, i, n, FromBytes(query))
    ensures
      var r := NavigateAt(fs, i, t, query);
      r.Landed? && r.leaf == Leaves(t)[n] && |r.query| == 8
      && FromBytes(r.query) == FromBytes(query) - Before(Leaves(t), i, n)
  {
    if t.Leaf? {
      n := 0;
      assert Before([t.d], i, 1) == Before([t.d], i, 0) + StakeOf(t.d, i);
    } else {
      var left := Total(t.left, i);
      var right := FromBytes(query) >= left;
      var rest := Rest(query, FromBytes(query), left);
      TurnInner(fs, i, t, query);
      var m := NavigateLands(fs, i, Child(t, right), rest);
      n := OwnsInner(t, i, right, m, FromBytes(rest));
    }
  }

  /** What is left of the query on the side it takes. */
  lemma TurnInner(fs: seq<Field>, i: nat, t: Tree, query: Bytes)
    requires i < |fs| && fs[i].Stake64? && t.Inner? && Settled(fs, t) && FullyKnown(t) && Total(t, i) < TWO_64
    requires |query| == 8 && FromBytes(query) < Total(t, i)
    ensures
      var left := Total(t.left, i);
      var right := FromBytes(query) >= left;
      var rest := Rest(query, FromBytes(query), left);
      && NavigateAt(fs, i, t, query) == NavigateAt(fs, i, Child(t, right), rest) && |rest| == 8
      && FromBytes(query) == FromBytes(rest) + (if right then left else 0)
      && FromBytes(rest) < Total(Child(t, right), i) < TWO_64
  {
    hide Settled, FullyKnown, Leaves, Before, FromBytes, NavigateAt;
    Parts(fs, t);
    TotalInner(t, i);
    StakeIsTotal(fs, i, t);
    StakeIsTotal(fs, i, t.left);
    var q, left := FromBytes(query), Total(t.left, i);
    Turn(fs, i, t, query, q, left);
    if q >= left {
      RoundTrip64(q - left);
    }
  }

  lemma Parts(fs: seq<Field>, t: Tree)
    requires t.Inner? && Settled(fs, t) && FullyKnown(t)
    ensures Settled(fs, t.left) && FullyKnown(t.left) && Settled(fs, t.right) && FullyKnown(t.right)
  {
  }

  /** No query is owned by two leaves. */
  lemma OwnerUnique(t: Tree, i: nat, m: nat, n: nat, q: nat)
    requires Owns(t, i, m, q) && Owns(t, i, n, q)
    ensures m == n
  {
    if m < n {
      BeforeMonotone(Leaves(t), i, m + 1, n);
    } else if n < m {
      BeforeMonotone(Leaves(t), i, n + 1, m);
    }
  }

  lemma {:induction false} LeafOfTree(fs: seq<Field>, t: Tree, n: nat)
    requires Settled(fs, t) && Tidy(fs, t) && FullyKnown(t) && n < |Leaves(t)|
    ensures var d := Leaves(t)[n]; d.known && ValuesOk(fs, d.values) && (d.key == [] ==> d.values == Placeholders(fs))
  {
    if t.Inner? {
      if n < |Leaves(t.left)| {
        LeafOfTree(fs, t.left, n);
      } else {
        LeafOfTree(fs, t.right, n - |Leaves(t.left)|);
      }
    }
  }

  /** A query below the total lands on exactly the leaf that owns it, and that leaf holds a
      key; a query that is not below the total fails at the root. */
  lemma StakeSelection(fs: seq<Field>, i: nat, t: Tree, q: nat)
    requires i < |fs| && fs[i].Stake64? && t.Inner? && Settled(fs, t) && Tidy(fs, t) && FullyKnown(t)
    requires Total(t, i) < TWO_64 && q < TWO_64
    ensures NavigateAt(fs, i, t, ToBytes(q, 8)) == BadQuery <==> q >= Total(t, i)
    ensures q >= Total(t, i) ==> Navigate(fs[i], ToBytes(q, 8), t.d.values[i], t.left.d.values[i]) == Error
    ensures q < Total(t, i) ==>
      var r := NavigateAt(fs, i, t, ToBytes(q, 8));
      && r.Landed? && r.leaf.key != []
      && exists n: nat :: Owns(t, i, n, q) && r.leaf == Leaves(t)[n] && forall m: nat :: Owns(t, i, m, q) ==> m == n
  {
    RoundTrip64(q);
    StakeIsTotal(fs, i, t);
    SettledValues(fs, t.left);
    if q < Total(t, i) {
      var n := NavigateLands(fs, i, t, ToBytes(q, 8));
      LeafOfTree(fs, t, n);
      assert Before(Leaves(t), i, n + 1) == Before(Leaves(t), i, n) + StakeOf(Leaves(t)[n], i);
      RoundTrip64(0);
      forall m: nat | Owns(t, i, m, q) ensures m == n {
        OwnerUnique(t, i, m, n, q);
      }
    }
  }

  ghost function Interval(a: nat, b: nat): (s: set<nat>)
    requires a <= b
  {
    set q: nat | q < b && AtLeast(q, a)
  }

  ghost predicate AtLeast(q: nat, a: nat) {
    a <= q
  }

  lemma {:induction false} IntervalSize(a: nat, b: nat)
    requires a <= b
    ensures |Interval(a, b)| == b - a
    decreases b
  {
    if a < b {
      IntervalSize(a, b - 1);
      assert Interval(a, b) == Interval(a, b - 1) + {b - 1};
    }
  }

  /** A leaf with stake s owns exactly s of the queries below the total. */
  lemma StakeShare(t: Tree, i: nat, n: nat)
    requires n < |Leaves(t)|
    ensures |set q: nat | q < Total(t, i) && Owns(t, i, n, q)| == StakeOf(Leaves(t)[n], i)
  {
    var a, b := Before(Leaves(t), i, n), Before(Leaves(t), i, n + 1);
    BeforeMonotone(Leaves(t), i, n + 1, |Leaves(t)|);
    IntervalSize(a, b);
    assert (set q: nat | q < Total(t, i) && Owns(t, i, n, q)) == Interval(a, b);
  }
}
