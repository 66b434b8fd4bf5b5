/** The shape and the labels of a fully known tree depend on the stored pairs alone. */
module Canonical {
  import opened Fields
  import opened Trie
  import opened Mapping

  /** Every label and every aggregated value is the one its node should have. */
  ghost predicate Settled(fs: seq<Field>, t: Tree) {
    match t
    case Leaf(d) => d.known ==>
      && ValuesOk(fs, d.values) && d.lbl == LeafLabel(d.key, d.values)
    case Inner(d, l, r) =>
      && d.known && Settled(fs, l) && Settled(fs, r)
      && ValuesOk(fs, d.values)
      && d.lbl == InnerLabel(d.values, l.d.lbl, r.d.lbl)
      && (l.d.known && r.d.known ==> Aggregates(fs, d.values, l.d.values, r.d.values))
  }

  ghost predicate Aggregates(fs: seq<Field>, vs: seq<Bytes>, l: seq<Bytes>, r: seq<Bytes>) {
    ValuesOk(fs, l) && ValuesOk(fs, r) && vs == ParentValues(fs, l, r)
  }

  /** Placeholders hold the placeholder values. */
  ghost predicate Tidy(fs: seq<Field>, t: Tree) {
    match t
    case Leaf(d) => d.known && d.key == [] ==> d.values == Placeholders(fs)
    case Inner(_, l, r) => Tidy(fs, l) && Tidy(fs, r)
  }

  ghost predicate Clean(t: Tree) {
    !t.d.dirty && (t.Inner? ==> Clean(t.left) && Clean(t.right))
  }

  /** No node other than the root could be replaced by one of its children. */
  ghost predicate Canon(t: Tree) {
    t.Inner? ==> Canon(t.left) && Canon(t.right) && !Collapsible(t.left, t.right)
  }

  /** The invariant of a collection that knows all its nodes, between two transactions. */
  ghost predicate Full(fs: seq<Field>, H: Hasher, t: Tree) {
    && t.Inner? && FullyKnown(t) && Placed(fs, H, t, [])
    && Settled(fs, t) && Tidy(fs, t) && Clean(t) && Canon(t.left) && Canon(t.right)
  }

  // ---- what the manipulators keep ----

  lemma SettledValues(fs: seq<Field>, t: Tree)
    requires Settled(fs, t) && t.d.known
    ensures ValuesOk(fs, t.d.values)
  {
  }

  /** What is hashed: a leaf's key and values, an internal node's values and the labels of its
      children, the left one first. */
  ghost predicate Hashed(t: Tree) {
    match t
    case Leaf(d) => d.known ==> d.lbl == Hash(true, d.key, d.values, Zero, Zero)
    case Inner(d, l, r) => d.lbl == Hash(false, [], d.values, l.d.lbl, r.d.lbl) && Hashed(l) && Hashed(r)
  }

  lemma {:induction false} SettledHashed(fs: seq<Field>, t: Tree)
    requires Settled(fs, t)
    ensures Hashed(t)
  {
    if t.Inner? {
      SettledHashed(fs, t.left);
      SettledHashed(fs, t.right);
    }
  }

  lemma UpdateSettled(fs: seq<Field>, t: Tree)
    requires t.Inner? && t.d.known && t.left.d.known && t.right.d.known
    requires Settled(fs, t.left) && Settled(fs, t.right)
    ensures Settled(fs, Update(fs, t))
  {
    SettledValues(fs, t.left);
    SettledValues(fs, t.right);
  }

  lemma {:induction false} EditSettled(fs: seq<Field>, H: Hasher, op: Op, t: Tree, p: Path)
    requires t.Inner? && Placed(fs, H, t, p) && p <= H(op.key) && OpOk(fs, op)
    requires Settled(fs, t.left) && Settled(fs, t.right)
    ensures Edit(fs, H, false, op, t, |p|).Ok? ==> Settled(fs, Edit(fs, H, false, op, t, |p|).tree)
    decreases BITS - |p|, 1
  {
    var step := H(op.key)[|p|];
    if t.left.d.known && t.right.d.known {
      EditChildSettled(fs, H, op, Child(t, step), p + [step]);
      EditChildPlaced(fs, H, false, op, Child(t, step), p + [step]);
      var e := EditChild(fs, H, false, op, Child(t, step), |p| + 1);
      if e.Ok? {
        UpdateSettled(fs, WithChild(t, step, e.tree));
      }
    }
  }

  lemma {:induction false} EditChildSettled(fs: seq<Field>, H: Hasher, op: Op, c: Tree, p: Path)
    requires Placed(fs, H, c, p) && p <= H(op.key) && OpOk(fs, op)
    requires Settled(fs, c) && c.d.known
    ensures EditChild(fs, H, false, op, c, |p|).Ok? ==> Settled(fs, EditChild(fs, H, false, op, c, |p|).tree)
    decreases BITS - |p|, 2
  {
    if c.Inner? {
      EditSettled(fs, H, op, c, p);
    } else if op.Add? && c.d.key != [] && c.d.key != op.key && |p| < BITS {
      SplitPlaced(fs, H, c.d, p);
      EditSettled(fs, H, op, Split(fs, c.d, H(c.d.key)[|p|]), p);
    }
  }

  lemma {:induction false} EditTidy(fs: seq<Field>, H: Hasher, lazy: bool, op: Op, t: Tree, depth: nat)
    requires t.Inner? && t.d.known && Tidy(fs, t) && op.key != []
    ensures Edit(fs, H, lazy, op, t, depth).Ok? ==>
      var t' := Edit(fs, H, lazy, op, t, depth).tree;
      Tidy(fs, t') && t'.d.known
    decreases BITS - depth, 1
  {
    if depth < BITS && t.left.d.known && t.right.d.known {
      EditChildTidy(fs, H, lazy, op, Child(t, H(op.key)[depth]), depth + 1);
    }
  }

  lemma {:induction false} EditChildTidy(fs: seq<Field>, H: Hasher, lazy: bool, op: Op, c: Tree, depth: nat)
    requires Tidy(fs, c) && c.d.known && op.key != []
    ensures EditChild(fs, H, lazy, op, c, depth).Ok? ==>
      var c' := EditChild(fs, H, lazy, op, c, depth).tree;
      Tidy(fs, c') && c'.d.known
    decreases BITS - depth, 2
  {
    if c.Inner? {
      EditTidy(fs, H, lazy, op, c, depth);
    } else if op.Add? && c.d.key != [] && depth < BITS {
      EditTidy(fs, H, lazy, op, Split(fs, c.d, H(c.d.key)[depth]), depth);
    }
  }

  lemma {:induction false} EditClean(fs: seq<Field>, H: Hasher, op: Op, t: Tree, depth: nat)
    requires t.Inner? && Clean(t)
    ensures Edit(fs, H, false, op, t, depth).Ok? ==> Clean(Edit(fs, H, false, op, t, depth).tree)
    decreases BITS - depth, 1
  {
    if depth < BITS {
      EditChildClean(fs, H, op, Child(t, H(op.key)[depth]), depth + 1);
    }
  }

  lemma {:induction false} EditChildClean(fs: seq<Field>, H: Hasher, op: Op, c: Tree, depth: nat)
    requires Clean(c)
    ensures EditChild(fs, H, false, op, c, depth).Ok? ==> Clean(EditChild(fs, H, false, op, c, depth).tree)
    decreases BITS - depth, 2
  {
    if c.Inner? {
      EditClean(fs, H, op, c, depth);
    } else if op.Add? && depth < BITS {
      EditClean(fs, H, op, Split(fs, c.d, H(c.d.key)[depth]), depth);
    }
  }

  /** How a manipulator may change what kind of node sits at a place. */
  ghost predicate KindStep(op: Op, c: Tree, c': Tree) {
    match op
    case Add(_, _) => !IsPlaceholder(c') && (IsPlaceholder(c) <==> c'.Leaf?)
    case Set(_, _) => c'.Leaf? == c.Leaf? && IsPlaceholder(c') == IsPlaceholder(c)
    case Remove(_) => IsPlaceholder(c') <==> c.Leaf?
  }

  lemma {:induction false} EditCanon(fs: seq<Field>, H: Hasher, lazy: bool, op: Op, t: Tree, depth: nat)
    requires t.Inner? && Canon(t.left) && Canon(t.right) && (op.Add? ==> op.key != [])
    requires depth > 0 ==> if op.Add? then !(IsPlaceholder(t.left) && IsPlaceholder(t.right)) else Canon(t)
    ensures Edit(fs, H, lazy, op, t, depth).Ok? ==>
      var t' := Edit(fs, H, lazy, op, t, depth).tree;
      if depth == 0 then t'.Inner? && Canon(t'.left) && Canon(t'.right)
      else Canon(t') && !IsPlaceholder(t') && (!op.Remove? ==> t'.Inner?)
    decreases BITS - depth, 1
  {
    if depth < BITS {
      EditChildCanon(fs, H, lazy, op, Child(t, H(op.key)[depth]), depth + 1);
    }
  }

  lemma {:induction false} EditChildCanon(fs: seq<Field>, H: Hasher, lazy: bool, op: Op, c: Tree, depth: nat)
    requires Canon(c) && (op.Add? ==> op.key != []) && depth > 0
    ensures EditChild(fs, H, lazy, op, c, depth).Ok? ==>
      var c' := EditChild(fs, H, lazy, op, c, depth).tree;
      Canon(c') && KindStep(op, c, c')
    decreases BITS - depth, 2
  {
    if c.Inner? {
      EditCanon(fs, H, lazy, op, c, depth);
    } else if op.Add? && c.d.key != [] && c.d.key != op.key && depth < BITS {
      EditCanon(fs, H, lazy, op, Split(fs, c.d, H(c.d.key)[depth]), depth);
    }
  }

  /** Every manipulator keeps the invariant and is an operation of the finite map. */
  lemma ApplyFull(fs: seq<Field>, H: Hasher, op: Op, t: Tree)
    requires Full(fs, H, t) && OpOk(fs, op) && op.key != [] && Apart(H, Stored(t), op.key)
    ensures Agrees(op, Stored(t), Apply(fs, H, false, op, t))
    ensures Full(fs, H, After(fs, H, false, op, t))
  {
    EditMap(fs, H, false, op, t, []);
    EditPlaced(fs, H, false, op, t, []);
    EditSettled(fs, H, op, t, []);
    EditTidy(fs, H, false, op, t, 0);
    EditClean(fs, H, op, t, 0);
    EditCanon(fs, H, false, op, t, 0);
  }

  lemma EmptyFull(fs: seq<Field>, H: Hasher)
    ensures Full(fs, H, Empty(fs)) && Stored(Empty(fs)) == map[]
  {
    assert Placed(fs, H, Leaf(PlaceholderData(fs, false)), [] + [false]);
    assert Placed(fs, H, Leaf(PlaceholderData(fs, false)), [] + [true]);
  }

  // ---- the shape is determined by the stored pairs ----

  /** A node other than the root is internal exactly if at least two stored keys lie below
      it, a leaf with a key if exactly one does, and a placeholder if none does. */
  lemma {:induction false} KindByCount(fs: seq<Field>, H: Hasher, t: Tree, p: Path)
    requires FullyKnown(t) && Placed(fs, H, t, p) && Canon(t)
    ensures t.Inner? <==> |Stored(t)| >= 2
    ensures t.Leaf? && t.d.key != [] <==> |Stored(t)| == 1
    ensures IsPlaceholder(t) <==> |Stored(t)| == 0
  {
    if t.Inner? {
      KindByCount(fs, H, t.left, p + [false]);
      KindByCount(fs, H, t.right, p + [true]);
      SidesDisjoint(fs, H, t, p);
      var l, r := Stored(t.left), Stored(t.right);
      assert (l + r).Keys == l.Keys + r.Keys;
      assert |l + r| == |(l + r).Keys| == |l.Keys| + |r.Keys|;
    }
  }

  /** The stored pairs on one side are those whose path takes that side. */
  lemma SideOf(fs: seq<Field>, H: Hasher, t: Tree, p: Path)
    requires t.Inner? && Placed(fs, H, t, p)
    ensures Stored(t.left) == map k | k in Stored(t) && !(|p| < BITS && H(k)[|p|]) :: Stored(t)[k]
    ensures Stored(t.right) == map k | k in Stored(t) && |p| < BITS && H(k)[|p|] :: Stored(t)[k]
  {
    SidesDisjoint(fs, H, t, p);
  }

  lemma {:induction false} Unique(fs: seq<Field>, H: Hasher, t: Tree, u: Tree, p: Path)
    requires FullyKnown(t) && Placed(fs, H, t, p) && Settled(fs, t) && Tidy(fs, t) && Clean(t)
    requires FullyKnown(u) && Placed(fs, H, u, p) && Settled(fs, u) && Tidy(fs, u) && Clean(u)
    requires if p == [] then t.Inner? && u.Inner? && Canon(t.left) && Canon(t.right) && Canon(u.left)
      && Canon(u.right)
             else Canon(t) && Canon(u)
    requires Stored(t) == Stored(u)
    ensures t == u
    decreases t
  {
    if p != [] {
      KindByCount(fs, H, t, p);
      KindByCount(fs, H, u, p);
    }
    if t.Inner? {
      SideOf(fs, H, t, p);
      SideOf(fs, H, u, p);
      Unique(fs, H, t.left, u.left, p + [false]);
      Unique(fs, H, t.right, u.right, p + [true]);
    } else if t.d.key != [] {
      assert t.d.key in Stored(u);
    }
  }

  /** Two collections that store the same pairs are the same tree. */
  lemma SameMapSameTree(fs: seq<Field>, H: Hasher, t: Tree, u: Tree)
    requires Full(fs, H, t) && Full(fs, H, u) && Stored(t) == Stored(u)
    ensures t == u
  {
    Unique(fs, H, t, u, []);
  }

  // ---- whole histories ----

  ghost predicate Separates(H: Hasher, keys: set<Bytes>) {
    forall a, b :: a in keys && b in keys && H(a) == H(b) ==> a == b
  }

  ghost predicate OpsOk(fs: seq<Field>, ops: seq<Op>, keys: set<Bytes>) {
    forall i :: 0 <= i < |ops| ==> OpOk(fs, ops[i]) && ops[i].key in keys && ops[i].key != []
  }

  ghost function MapRun(ops: seq<Op>, m: Contents): Contents {
    if ops == [] then m
    else MapRun(ops[1..], match MapOp(ops[0], m) case Some(m') => m' case None => m)
  }

  lemma {:induction false} RunFull(fs: seq<Field>, H: Hasher, ops: seq<Op>, t: Tree, keys: set<Bytes>)
    requires Full(fs, H, t) && Separates(H, keys) && Stored(t).Keys <= keys && OpsOk(fs, ops, keys)
    ensures Full(fs, H, Run(fs, H, false, ops, t))
    ensures Stored(Run(fs, H, false, ops, t)) == MapRun(ops, Stored(t))
  {
    if ops != [] {
      ApplyFull(fs, H, ops[0], t);
      RunFull(fs, H, ops[1..], After(fs, H, false, ops[0], t), keys);
    }
  }

  /** Two sequences of calls on new collections that end in the same map end in the same
      tree, and so in the same root label. Calls that fail may be among them. */
  lemma HistoryIndependence(fs: seq<Field>, H: Hasher, xs: seq<Op>, ys: seq<Op>, keys: set<Bytes>)
    requires Separates(H, keys) && OpsOk(fs, xs, keys) && OpsOk(fs, ys, keys)
    requires MapRun(xs, map[]) == MapRun(ys, map[])
    ensures Run(fs, H, false, xs, Empty(fs)) == Run(fs, H, false, ys, Empty(fs))
  {
    EmptyFull(fs, H);
    RunFull(fs, H, xs, Empty(fs), keys);
    RunFull(fs, H, ys, Empty(fs), keys);
    SameMapSameTree(fs, H, Run(fs, H, false, xs, Empty(fs)), Run(fs, H, false, ys, Empty(fs)));
  }

  /** And the root label commits to the map: different maps have different root labels. */
  lemma {:induction false} LabelDetermines(fs: seq<Field>, H: Hasher, t: Tree, u: Tree, p: Path)
    requires FullyKnown(t) && Placed(fs, H, t, p) && Settled(fs, t)
    requires FullyKnown(u) && Placed(fs, H, u, p) && Settled(fs, u)
    requires t.d.lbl == u.d.lbl
    ensures Stored(t) == Stored(u)
  {
    if t.Inner? && u.Inner? {
      LabelDetermines(fs, H, t.left, u.left, p + [false]);
      LabelDetermines(fs, H, t.right, u.right, p + [true]);
    }
  }
}
