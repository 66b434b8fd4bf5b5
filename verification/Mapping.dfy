/** A fully known tree is a finite map, and the manipulators are the operations of that
    map: insert if absent, update if present, delete if present. */
module Mapping {
  import opened Fields
  import opened Trie

  type Contents = map<Bytes, seq<Bytes>>

  /** Every leaf lies on the path of its key, and stores one value per field. */
  ghost predicate Placed(fs: seq<Field>, H: Hasher, t: Tree, p: Path) {
    match t
    case Leaf(d) =>
      && |p| <= BITS
      && (if d.known then ValuesOk(fs, d.values) && (d.key != [] ==> p <= H(d.key)) else d.key == [])
    case Inner(d, l, r) =>
      && |p| < BITS && d.known && d.key == []
      && Placed(fs, H, l, p + [false]) && Placed(fs, H, r, p + [true])
  }

  ghost predicate FullyKnown(t: Tree) {
    t.d.known && (t.Inner? ==> FullyKnown(t.left) && FullyKnown(t.right))
  }

  /** The key/value pairs stored in the leaves. */
  ghost function Stored(t: Tree): Contents {
    match t
    case Leaf(d) => if d.known && d.key != [] then map[d.key := d.values] else map[]
    case Inner(_, l, r) => Stored(l) + Stored(r)
  }

  /** The operations of the finite map; None is failure. */
  ghost function MapOp(op: Op, m: Contents): Option<Contents> {
    match op
    case Add(k, raw) => if k in m then None else Some(m[k := raw])
    case Set(k, change) =>
      if k !in m then None
      else Some(m[k := seq(|m[k]|, i requires 0 <= i < |m[k]| =>
        if i < |change| && change[i].Some? then change[i].value else m[k][i])])
    case Remove(k) => if k in m then Some(m - {k}) else None
  }

  ghost predicate Apart(H: Hasher, m: Contents, key: Bytes) {
    forall k :: k in m && H(k) == H(key) ==> k == key
  }

  lemma {:induction false} StoredPlaced(fs: seq<Field>, H: Hasher, t: Tree, p: Path)
    requires Placed(fs, H, t, p)
    ensures forall k :: k in Stored(t) ==> p <= H(k) && k != [] && ValuesOk(fs, Stored(t)[k])
  {
    match t
    case Leaf(_) =>
    case Inner(_, l, r) =>
      StoredPlaced(fs, H, l, p + [false]);
      StoredPlaced(fs, H, r, p + [true]);
      assert p <= p + [false] && p <= p + [true];
  }

  lemma PrefixStep(q: Digest, p: Path, b: bool)
    requires p <= q && |p| < BITS
    ensures p + [b] <= q <==> q[|p|] == b
  {
  }

  lemma FullPath(a: Digest, b: Digest, p: Path)
    requires p <= a && p <= b && |p| == BITS
    ensures a == b
  {
    assert a == p == b;
  }

  /** Below a node the keys on the two sides are different. */
  lemma SidesDisjoint(fs: seq<Field>, H: Hasher, t: Tree, p: Path)
    requires t.Inner? && Placed(fs, H, t, p)
    ensures forall k :: k in Stored(t.left) ==> p <= H(k) && !H(k)[|p|]
    ensures forall k :: k in Stored(t.right) ==> p <= H(k) && H(k)[|p|]
    ensures Stored(t.left).Keys !! Stored(t.right).Keys
  {
    StoredPlaced(fs, H, t.left, p + [false]);
    StoredPlaced(fs, H, t.right, p + [true]);
    forall k | k in Stored(t.left) ensures p <= H(k) && !H(k)[|p|] {
      assert (p + [false])[|p|] == H(k)[|p|];
    }
    forall k | k in Stored(t.right) ensures p <= H(k) && H(k)[|p|] {
      assert (p + [true])[|p|] == H(k)[|p|];
    }
  }

  /** What a node's invariants say of the child on a key's path. */
  lemma Below(fs: seq<Field>, H: Hasher, t: Tree, p: Path, key: Bytes)
    requires t.Inner? && FullyKnown(t) && Placed(fs, H, t, p) && p <= H(key)
    ensures |p| < BITS
    ensures
      var step := H(key)[|p|];
      var c := Child(t, step);
      && FullyKnown(c) && Placed(fs, H, c, p + [step]) && p + [step] <= H(key)
      && (Apart(H, Stored(t), key) ==> Apart(H, Stored(c), key))
  {
    SidesDisjoint(fs, H, t, p);
  }

  lemma UpdateKeeps(fs: seq<Field>, H: Hasher, t: Tree, p: Path)
    ensures Stored(Update(fs, t)) == Stored(t)
    ensures FullyKnown(Update(fs, t)) == FullyKnown(t)
    ensures Placed(fs, H, Update(fs, t), p) == Placed(fs, H, t, p)
  {
  }

  lemma RebuildKeeps(fs: seq<Field>, H: Hasher, lazy: bool, op: Op, t: Tree, p: Path)
    requires t.Inner? && Placed(fs, H, t, p) && t.left.d.known && t.right.d.known
    ensures Placed(fs, H, Rebuild(fs, lazy, op, |p|, t), p)
    ensures Stored(Rebuild(fs, lazy, op, |p|, t)) == Stored(t)
    ensures FullyKnown(t) ==> FullyKnown(Rebuild(fs, lazy, op, |p|, t))
  {
    UpdateKeeps(fs, H, t, p);
    assert p <= p + [false] && p <= p + [true];
  }

  lemma SplitPlaced(fs: seq<Field>, H: Hasher, d: NodeData, p: Path)
    requires |p| < BITS && Placed(fs, H, Leaf(d), p) && d.known && d.key != []
    ensures Placed(fs, H, Split(fs, d, H(d.key)[|p|]), p)
    ensures Stored(Split(fs, d, H(d.key)[|p|])) == map[d.key := d.values]
    ensures FullyKnown(Split(fs, d, H(d.key)[|p|]))
  {
    PrefixStep(H(d.key), p, H(d.key)[|p|]);
  }

  /** The manipulators keep every leaf on its path. */
  lemma {:induction false} EditPlaced(fs: seq<Field>, H: Hasher, lazy: bool, op: Op, t: Tree, p: Path)
    requires t.Inner? && Placed(fs, H, t, p) && p <= H(op.key) && OpOk(fs, op)
    ensures Edit(fs, H, lazy, op, t, |p|).Ok? ==>
      var t' := Edit(fs, H, lazy, op, t, |p|).tree;
      Placed(fs, H, t', p) && t'.d.known
    decreases BITS - |p|, 1
  {
    var step := H(op.key)[|p|];
    if t.left.d.known && t.right.d.known {
      EditChildPlaced(fs, H, lazy, op, Child(t, step), p + [step]);
      var e := EditChild(fs, H, lazy, op, Child(t, step), |p| + 1);
      if e.Ok? {
        RebuildKeeps(fs, H, lazy, op, WithChild(t, step, e.tree), p);
      }
    }
  }

  lemma {:induction false} EditChildPlaced(fs: seq<Field>, H: Hasher, lazy: bool, op: Op, c: Tree, p: Path)
    requires Placed(fs, H, c, p) && p <= H(op.key) && OpOk(fs, op) && c.d.known
    ensures EditChild(fs, H, lazy, op, c, |p|).Ok? ==>
      var c' := EditChild(fs, H, lazy, op, c, |p|).tree;
      Placed(fs, H, c', p) && c'.d.known
    decreases BITS - |p|, 2
  {
    if c.Inner? {
      EditPlaced(fs, H, lazy, op, c, p);
    } else if op.Add? && c.d.key != [] && c.d.key != op.key && |p| < BITS {
      SplitPlaced(fs, H, c.d, p);
      EditPlaced(fs, H, lazy, op, Split(fs, c.d, H(c.d.key)[|p|]), p);
    }
  }

  ghost predicate Agrees(op: Op, m: Contents, r: Result) {
    match r
    case Ok(t) => FullyKnown(t) && MapOp(op, m) == Some(Stored(t))
    case Err(e) => MapOp(op, m) == None && e == if op.Add? then KeyCollision else KeyNotFound
  }

  /** A map operation on one of two disjoint parts. */
  lemma MapOpPart(op: Op, a: Contents, b: Contents)
    requires a.Keys !! b.Keys && op.key !in b
    ensures a + b == b + a
    ensures MapOp(op, a).None? <==> MapOp(op, a + b).None?
    ensures MapOp(op, a).Some? ==>
      && MapOp(op, a + b) == Some(MapOp(op, a).value + b)
      && MapOp(op, a + b) == Some(b + MapOp(op, a).value)
  {
    if MapOp(op, a).Some? {
      var a' := MapOp(op, a).value;
      assert a'.Keys <= a.Keys + {op.key};
      assert MapOp(op, a + b).value == a' + b;
      assert a' + b == b + a';
    }
  }

  /** Below any node, a manipulator does to the stored pairs what the map operation does. */
  lemma {:induction false} EditMap(fs: seq<Field>, H: Hasher, lazy: bool, op: Op, t: Tree, p: Path)
    requires t.Inner? && FullyKnown(t) && Placed(fs, H, t, p) && p <= H(op.key) && OpOk(fs, op)
    requires op.key != [] && Apart(H, Stored(t), op.key)
    ensures Agrees(op, Stored(t), Edit(fs, H, lazy, op, t, |p|))
    decreases BITS - |p|, 1
  {
    hide Agrees, Stored, Placed, Edit, EditChild, Apart, OpOk;
    Below(fs, H, t, p, op.key);
    var step := H(op.key)[|p|];
    EditChildMap(fs, H, lazy, op, Child(t, step), p + [step]);
    EditChildPlaced(fs, H, lazy, op, Child(t, step), p + [step]);
    EditMapStep(fs, H, lazy, op, t, p);
  }

  lemma EditMapStep(fs: seq<Field>, H: Hasher, lazy: bool, op: Op, t: Tree, p: Path)
    requires t.Inner? && FullyKnown(t) && Placed(fs, H, t, p) && p <= H(op.key)
    requires
      var step := H(op.key)[|p|];
      var e := EditChild(fs, H, lazy, op, Child(t, step), |p| + 1);
      Agrees(op, Stored(Child(t, step)), e) && (e.Ok? ==> Placed(fs, H, e.tree, p + [step]))
    ensures Agrees(op, Stored(t), Edit(fs, H, lazy, op, t, |p|))
  {
    var step := H(op.key)[|p|];
    var e := EditChild(fs, H, lazy, op, Child(t, step), |p| + 1);
    SidesDisjoint(fs, H, t, p);
    MapOpPart(op, Stored(Child(t, step)), Stored(Child(t, !step)));
    if e.Ok? {
      RebuildKeeps(fs, H, lazy, op, WithChild(t, step, e.tree), p);
    }
  }

  lemma LeafMap(fs: seq<Field>, H: Hasher, lazy: bool, op: Op, c: Tree, depth: nat)
    requires c.Leaf? && c.d.known && op.key != []
    requires op.Add? ==> c.d.key == [] || c.d.key == op.key
    ensures Agrees(op, Stored(c), EditChild(fs, H, lazy, op, c, depth))
  {
    var e := EditChild(fs, H, lazy, op, c, depth);
    match op
    case Add(_, raw) =>
    case Set(_, change) =>
      if c.d.key == op.key {
        assert MapOp(op, Stored(c)).value[op.key] == e.tree.d.values;
        assert MapOp(op, Stored(c)).value == Stored(e.tree);
      }
    case Remove(_) =>
      if c.d.key == op.key {
        assert Stored(c) - {op.key} == map[];
      }
  }

  lemma {:induction false} EditChildMap(fs: seq<Field>, H: Hasher, lazy: bool, op: Op, c: Tree, p: Path)
    requires FullyKnown(c) && Placed(fs, H, c, p) && p <= H(op.key) && OpOk(fs, op)
    requires op.key != [] && Apart(H, Stored(c), op.key)
    ensures Agrees(op, Stored(c), EditChild(fs, H, lazy, op, c, |p|))
    decreases BITS - |p|, 2
  {
    if c.Inner? {
      EditMap(fs, H, lazy, op, c, p);
    } else if op.Add? && c.d.key != [] && c.d.key != op.key {
      if |p| == BITS {
        FullPath(H(c.d.key), H(op.key), p);
        assert false;
      } else {
        SplitPlaced(fs, H, c.d, p);
        EditMap(fs, H, lazy, op, Split(fs, c.d, H(c.d.key)[|p|]), p);
      }
    } else {
      LeafMap(fs, H, lazy, op, c, |p|);
    }
  }

  // ---- trees that are not fully known ----

  /** A manipulator that succeeds has done the map operation, whatever else is known. */
  lemma {:induction false} EditOk(fs: seq<Field>, H: Hasher, lazy: bool, op: Op, t: Tree, p: Path)
    requires t.Inner? && Placed(fs, H, t, p) && p <= H(op.key) && OpOk(fs, op) && op.key != []
    ensures Edit(fs, H, lazy, op, t, |p|).Ok? ==>
      MapOp(op, Stored(t)) == Some(Stored(Edit(fs, H, lazy, op, t, |p|).tree))
    decreases BITS - |p|, 1
  {
    var step := H(op.key)[|p|];
    if t.left.d.known && t.right.d.known {
      EditChildOk(fs, H, lazy, op, Child(t, step), p + [step]);
      EditChildPlaced(fs, H, lazy, op, Child(t, step), p + [step]);
      var e := EditChild(fs, H, lazy, op, Child(t, step), |p| + 1);
      if e.Ok? {
        OkStep(fs, H, lazy, op, t, p, e.tree);
      }
    }
  }

  lemma OkStep(fs: seq<Field>, H: Hasher, lazy: bool, op: Op, t: Tree, p: Path, c: Tree)
    requires t.Inner? && Placed(fs, H, t, p) && p <= H(op.key) && t.left.d.known && t.right.d.known && c.d.known
    requires
      var step := H(op.key)[|p|];
      Placed(fs, H, c, p + [step]) && MapOp(op, Stored(Child(t, step))) == Some(Stored(c))
    ensures
      var t' := Rebuild(fs, lazy, op, |p|, WithChild(t, H(op.key)[|p|], c));
      MapOp(op, Stored(t)) == Some(Stored(t'))
  {
    hide Rebuild, MapOp;
    var step := H(op.key)[|p|];
    SidesDisjoint(fs, H, t, p);
    MapOpPart(op, Stored(Child(t, step)), Stored(Child(t, !step)));
    RebuildKeeps(fs, H, lazy, op, WithChild(t, step, c), p);
  }

  lemma {:induction false} EditChildOk(fs: seq<Field>, H: Hasher, lazy: bool, op: Op, c: Tree, p: Path)
    requires c.d.known && Placed(fs, H, c, p) && p <= H(op.key) && OpOk(fs, op) && op.key != []
    ensures EditChild(fs, H, lazy, op, c, |p|).Ok? ==>
      MapOp(op, Stored(c)) == Some(Stored(EditChild(fs, H, lazy, op, c, |p|).tree))
    decreases BITS - |p|, 2
  {
    if c.Inner? {
      EditOk(fs, H, lazy, op, c, p);
    } else if op.Add? && c.d.key != [] && c.d.key != op.key {
      if |p| < BITS {
        SplitPlaced(fs, H, c.d, p);
        EditOk(fs, H, lazy, op, Split(fs, c.d, H(c.d.key)[|p|]), p);
      }
    } else {
      LeafMap(fs, H, lazy, op, c, |p|);
    }
  }
}
