/** The way down: from the root to the leaf on the path of a key. */
module StoreDescent {
  import opened Fields
  import opened Trie
  import opened Mapping
  import opened Canonical
  import opened Layout
  import opened Store
  import opened StoreShape
  import opened StoreMarks
  import opened StoreSteps
  import opened StoreWalk

  /** What does not change with the direction: the node at depth `d` is part of the tree
      and lies on the path of the key. */
  ghost predicate OnPath(fs: seq<Field>, H: Hasher, lazy: bool, op: Op, m: Table, d: nat) {
    var q := H(op.key);
    && d <= BITS && q[..d] in m && m[q[..d]].known && Prefixed(m) && WayKnown(m, q, d) && OpOk(fs, op)
    && Placed(fs, H, Build(m, q[..d]), q[..d])
    && (op.Add? ==> Apart(H, Stored(Build(m, q[..d])), op.key))
  }

  /** The cursor is at an internal node; what is left to do is Edit. */
  ghost predicate TableDescend(fs: seq<Field>, H: Hasher, lazy: bool, op: Op, m: Table, d: nat, out: Result) {
    var q := H(op.key);
    && OnPath(fs, H, lazy, op, m, d) && Build(m, q[..d]).Inner? && (!lazy ==> Valued(fs, m, q, d + 1))
    && out == ClimbResult(fs, lazy, op, m, q[..d], Edit(fs, H, lazy, op, Build(m, q[..d]), d))
  }

  /** The cursor has just moved to a child; what is left to do is EditChild. */
  ghost predicate TableAtChild(fs: seq<Field>, H: Hasher, lazy: bool, op: Op, m: Table, d: nat, out: Result) {
    var q := H(op.key);
    && OnPath(fs, H, lazy, op, m, d) && 0 < d && (!lazy ==> Valued(fs, m, q, d))
    && out == ClimbResult(fs, lazy, op, m, q[..d], EditChild(fs, H, lazy, op, Build(m, q[..d]), d))
  }

  ghost predicate Descending(fs: seq<Field>, H: Hasher, lazy: bool, op: Op, s: Store, d: nat, out: Result) {
    && Inv(s) && Quiet(s, lazy) && Marks(s, lazy, H(op.key), d + 1)
    && TableDescend(fs, H, lazy, op, TableOf(s), d, out)
  }

  ghost predicate AtChild(fs: seq<Field>, H: Hasher, lazy: bool, op: Op, s: Store, d: nat, out: Result) {
    && Inv(s) && Quiet(s, lazy) && Marks(s, lazy, H(op.key), d)
    && TableAtChild(fs, H, lazy, op, TableOf(s), d, out)
  }

  // ---- on the table ----

  lemma DescendUnknown(fs: seq<Field>, H: Hasher, lazy: bool, op: Op, m: Table, d: nat, out: Result)
    requires TableDescend(fs, H, lazy, op, m, d, out)
    requires !(Build(m, H(op.key)[..d]).left.d.known && Build(m, H(op.key)[..d]).right.d.known)
    ensures out == Err(UnknownSubtree)
  {
  }

  lemma ApartBelow(fs: seq<Field>, H: Hasher, t: Tree, p: Path, key: Bytes, b: bool)
    requires t.Inner? && Placed(fs, H, t, p) && Apart(H, Stored(t), key)
    ensures Apart(H, Stored(Child(t, b)), key)
  {
    SidesDisjoint(fs, H, t, p);
  }

  lemma DescendStep(fs: seq<Field>, H: Hasher, lazy: bool, op: Op, m: Table, d: nat, out: Result)
    requires TableDescend(fs, H, lazy, op, m, d, out)
    requires Build(m, H(op.key)[..d]).left.d.known && Build(m, H(op.key)[..d]).right.d.known
    ensures d < BITS && TableAtChild(fs, H, lazy, op, m, d + 1, out)
  {
    var q := H(op.key);
    var p, t := q[..d], Build(m, q[..d]);
    EditDown(fs, H, lazy, op, m, p);
    var b := q[d];
    assert q[..d + 1] == p + [b];
    if op.Add? {
      ApartBelow(fs, H, t, p, op.key, b);
    }
    WayKnownMore(m, q, d);
  }

  lemma WayKnownMore(m: Table, q: Digest, d: nat)
    requires WayKnown(m, q, d) && d < BITS && q[..d] in m && Build(m, q[..d]).Inner?
    requires Build(m, q[..d]).left.d.known && Build(m, q[..d]).right.d.known
    ensures WayKnown(m, q, d + 1)
  {
    var t := Build(m, q[..d]);
    assert t.left == Build(m, q[..d] + [false]) && t.right == Build(m, q[..d] + [true]);
  }

  lemma StayInner(fs: seq<Field>, H: Hasher, lazy: bool, op: Op, m: Table, d: nat, out: Result)
    requires TableAtChild(fs, H, lazy, op, m, d, out) && Build(m, H(op.key)[..d]).Inner?
    ensures TableDescend(fs, H, lazy, op, m, d, out)
  {
  }

  /** The leaf at the end of the path is replaced by the outcome of EditChild. */
  lemma TableWritten(fs: seq<Field>, H: Hasher, lazy: bool, op: Op, m: Table, m': Table, d: nat, x: NodeData,
      out: Result)
    requires TableAtChild(fs, H, lazy, op, m, d, out) && Build(m, H(op.key)[..d]).Leaf?
    requires EditChild(fs, H, lazy, op, Build(m, H(op.key)[..d]), d) == Ok(Leaf(x)) && x.known
    requires m' == m[H(op.key)[..d] := x] && ValuesOk(fs, x.values)
    ensures TableClimb(fs, lazy, op, m', H(op.key), d, out)
  {
    var q := H(op.key);
    var p := q[..d];
    PutData(m, p, x);
    ClimbFrame(fs, lazy, op, m, m', p, Leaf(x));
    WayKnownFrame(m, m', q, d);
  }

  /** Below a leaf that has made room there are only two leaves, neither of the new key. */
  ghost predicate JustSplit(t: Tree, key: Bytes) {
    && t.Inner? && t.left.Leaf? && t.right.Leaf? && t.left.d.known && t.right.d.known
    && t.left.d.key != key && t.right.d.key != key
  }

  lemma TableSplit(fs: seq<Field>, H: Hasher, lazy: bool, op: Op, m: Table, m': Table, d: nat, out: Result)
    requires TableAtChild(fs, H, lazy, op, m, d, out) && Build(m, H(op.key)[..d]).Leaf? && d < BITS
    requires op.Add? && op.key != [] && m[H(op.key)[..d]].key != [] && m[H(op.key)[..d]].key != op.key
    requires Childless(m, H(op.key)[..d])
    requires
      var x := m[H(op.key)[..d]];
      var t := Split(fs, x, H(x.key)[d]);
      m' == Branch(m, H(op.key)[..d], t.d, t.left.d, t.right.d)
    ensures TableDescend(fs, H, lazy, op, m', d, out) && JustSplit(Build(m', H(op.key)[..d]), op.key)
  {
    var q := H(op.key);
    var p, x := q[..d], m[q[..d]];
    var t := Split(fs, x, H(x.key)[d]);
    BranchPrefixed(m, p, t.d, t.left.d, t.right.d);
    BranchBuild(m, p, t.d, t.left.d, t.right.d);
    assert Build(m, p) == Leaf(x) && Build(m', p) == t;
    SplitPlaced(fs, H, x, p);
    var e := Edit(fs, H, lazy, op, t, d);
    ClimbFrame(fs, lazy, op, m, m', p, if e.Ok? then e.tree else NOWHERE);
    SplitWay(m, m', p, q, d, t);
    if !lazy {
      SplitValued(fs, m, m', p, q, d, t);
    }
  }

  lemma SplitWay(m: Table, m': Table, p: Path, q: Digest, d: nat, t: Tree)
    requires WayKnown(m, q, d) && p == q[..d] && t.Inner? && t.d.known && m' == Branch(m, p, t.d, t.left.d, t.right.d)
    ensures WayKnown(m', q, d)
  {
    WayKnownFrame(m, m', q, d);
  }

  lemma SplitValued(fs: seq<Field>, m: Table, m': Table, p: Path, q: Digest, d: nat, t: Tree)
    requires d <= |q| && Valued(fs, m, q, d) && p == q[..d] && t.Inner?
      && m' == Branch(m, p, t.d, t.left.d, t.right.d)
    requires ValuesOk(fs, t.left.d.values) && ValuesOk(fs, t.right.d.values)
    ensures Valued(fs, m', q, d + 1)
  {
    ChildPaths(p);
    forall r | r in m' && m'[r].known && !(|r| < d + 1 && r <= q) ensures ValuesOk(fs, m'[r].values) {
      if r != p + [false] && r != p + [true] && r != p {
        assert m'[r] == m[r];
      }
    }
  }

  /** With no two keys on the same path, a leaf of another key is not at full depth. */
  lemma RoomToSplit(fs: seq<Field>, H: Hasher, lazy: bool, op: Op, m: Table, d: nat, out: Result)
    requires TableAtChild(fs, H, lazy, op, m, d, out) && Build(m, H(op.key)[..d]).Leaf?
    requires op.Add? && m[H(op.key)[..d]].key != [] && m[H(op.key)[..d]].key != op.key
    ensures d < BITS
  {
    var q := H(op.key);
    if d == BITS {
      FullPath(H(m[q[..d]].key), q, q[..d]);
    }
  }

  // ---- on the snapshot ----

  lemma DescendToChild(fs: seq<Field>, H: Hasher, lazy: bool, op: Op, s: Store, d: nat, out: Result)
    requires Descending(fs, H, lazy, op, s, d, out)
    requires Build(TableOf(s), H(op.key)[..d]).left.d.known && Build(TableOf(s), H(op.key)[..d]).right.d.known
    ensures d < BITS && AtChild(fs, H, lazy, op, s, d + 1, out)
  {
    DescendStep(fs, H, lazy, op, TableOf(s), d, out);
  }

  lemma ChildInner(fs: seq<Field>, H: Hasher, lazy: bool, op: Op, s: Store, d: nat, out: Result)
    requires AtChild(fs, H, lazy, op, s, d, out) && Build(TableOf(s), H(op.key)[..d]).Inner?
    ensures Descending(fs, H, lazy, op, s, d, out)
  {
    StayInner(fs, H, lazy, op, TableOf(s), d, out);
    MoreMarks(s, lazy, H(op.key), d, d + 1);
  }

  lemma ChildBackup(fs: seq<Field>, H: Hasher, op: Op, s: Store, s': Store, d: nat, out: Result)
    requires AtChild(fs, H, true, op, s, d, out)
    requires Inv(s') && Stirs(s, s', {s.nodes[H(op.key)[..d]]}) && TableOf(s') == TableOf(s)
    ensures AtChild(fs, H, true, op, s', d, out)
  {
    ChildBackupMarks(s, s', H(op.key), d);
  }

  lemma ChildBackupMarks(s: Store, s': Store, q: Digest, d: nat)
    requires Inv(s) && d <= |q| && q[..d] in s.nodes && Marks(s, true, q, d)
    requires Allocated(s') && Stirs(s, s', {s.nodes[q[..d]]})
    ensures Marks(s', true, q, d)
  {
    assert Above(s, q, d + 1, s.nodes[q[..d]]);
    StirMarks(s, s', {s.nodes[q[..d]]}, true, q, d);
  }

  lemma ChildWritten(fs: seq<Field>, H: Hasher, lazy: bool, op: Op, s: Store, s': Store, d: nat, x: NodeData,
      out: Result)
    requires AtChild(fs, H, lazy, op, s, d, out) && Build(TableOf(s), H(op.key)[..d]).Leaf?
    requires EditChild(fs, H, lazy, op, Build(TableOf(s), H(op.key)[..d]), d) == Ok(Leaf(x)) && x.known
      && ValuesOk(fs, x.values)
    requires Inv(s') && Stirs(s, s', {}) && TableOf(s') == TableOf(s)[H(op.key)[..d] := x]
    ensures Climbing(fs, lazy, op, s', H(op.key), d, out)
  {
    TableWritten(fs, H, lazy, op, TableOf(s), TableOf(s'), d, x, out);
    WrittenMarks(s, s', lazy, H(op.key), d);
  }

  lemma WrittenMarks(s: Store, s': Store, lazy: bool, q: Path, d: nat)
    requires Inv(s) && Inv(s') && Stirs(s, s', {}) && Marks(s, lazy, q, d) && Quiet(s, lazy)
    ensures Marks(s', lazy, q, d) && Quiet(s', lazy)
  {
    StirMarks(s, s', {}, lazy, q, d);
  }

  lemma ForkQuiet(s: Store, p: Path, s': Store, lazy: bool)
    requires Allocated(s) && p in s.nodes && Quiet(s, lazy) && Forks(s, p, s') && s'.orig == s.orig
    ensures Quiet(s', lazy)
  {
  }

  lemma ChildSplit(fs: seq<Field>, H: Hasher, lazy: bool, op: Op, s: Store, s': Store, d: nat, out: Result)
    requires AtChild(fs, H, lazy, op, s, d, out) && Build(TableOf(s), H(op.key)[..d]).Leaf? && d < BITS
    requires op.Add? && op.key != [] && TableOf(s)[H(op.key)[..d]].key != []
      && TableOf(s)[H(op.key)[..d]].key != op.key
    requires Inv(s') && Forks(s, H(op.key)[..d], s') && s'.orig == s.orig
    requires
      var p := H(op.key)[..d];
      var x := TableOf(s)[p];
      var t := Split(fs, x, H(x.key)[d]);
      TableOf(s') == Branch(TableOf(s), p, t.d, t.left.d, t.right.d)
    ensures Descending(fs, H, lazy, op, s', d, out) && JustSplit(Build(TableOf(s'), H(op.key)[..d]), op.key)
  {
    var p := H(op.key)[..d];
    NodeShape(s, p);
    TableSplit(fs, H, lazy, op, TableOf(s), TableOf(s'), d, out);
    ForkMarks(s, p, s', lazy, H(op.key), d);
    ForkQuiet(s, p, s', lazy);
  }

  /** An internal node on the path, and its children. */
  lemma ChildrenOf(s: Store, q: Digest, d: nat)
    requires Allocated(s) && AllLinked(s) && d <= |q| && q[..d] in s.nodes && Build(TableOf(s), q[..d]).Inner?
    ensures
      var c, t := s.cells[s.nodes[q[..d]]], Build(TableOf(s), q[..d]);
      && d < BITS && c.left != null && c.right != null && c.left in s.cells && c.right in s.cells
      && t.left.d.known == s.cells[c.left].known && t.right.d.known == s.cells[c.right].known
      && q[..d + 1] in s.nodes && s.nodes[q[..d + 1]] == (if q[d] then c.right else c.left)
      && Build(TableOf(s), q[..d + 1]) == Child(t, q[d])
  {
    NodeShape(s, q[..d]);
    NodeShape(s, q[..d] + [false]);
    NodeShape(s, q[..d] + [true]);
    if q[d] {
      assert q[..d + 1] == q[..d] + [true];
    } else {
      assert q[..d + 1] == q[..d] + [false];
    }
  }

  lemma ChildNode(fs: seq<Field>, H: Hasher, lazy: bool, op: Op, s: Store, d: nat, out: Result)
    requires AtChild(fs, H, lazy, op, s, d, out)
    ensures
      var q := H(op.key);
      var c := s.cells[s.nodes[q[..d]]];
      && c.known && (c.left == null <==> Build(TableOf(s), q[..d]).Leaf?)
      && TableOf(s)[q[..d]].key == c.key && (c.left == null ==> !c.lent)
  {
    var q := H(op.key);
    NodeShape(s, q[..d]);
    assert LentAt(s, lazy, q, d, q[..d], d);
  }

  // ---- as seen from the methods ----

  /** The node is the leaf that Add may fill, or that Set and Remove look for. */
  ghost predicate Hit(op: Op, c: Cell) {
    c.left == null && c.key == if op.Add? then [] else op.key
  }

  lemma DescendLinks(fs: seq<Field>, H: Hasher, lazy: bool, op: Op, s: Store, n: Node, c: Cell, d: nat, out: Result)
    requires Descending(fs, H, lazy, op, s, d, out) && Holds(s, n, H(op.key)[..d]) && CellAt(s, n, c)
    ensures d < BITS && c.left != null && c.right != null && c.left in s.cells && c.right in s.cells
  {
    ChildrenOf(s, H(op.key), d);
  }

  lemma DescendBlocked(fs: seq<Field>, H: Hasher, lazy: bool, op: Op, s: Store, n: Node, c: Cell, d: nat, out: Result)
    requires Descending(fs, H, lazy, op, s, d, out) && Holds(s, n, H(op.key)[..d]) && CellAt(s, n, c)
    requires c.left != null && c.left in s.cells && c.right != null && c.right in s.cells
    requires !s.cells[c.left].known || !s.cells[c.right].known
    ensures out == Err(UnknownSubtree) && !JustSplit(Build(Now(s), H(op.key)[..d]), op.key)
  {
    ChildrenOf(s, H(op.key), d);
    DescendUnknown(fs, H, lazy, op, TableOf(s), d, out);
  }

  lemma DescendOn(fs: seq<Field>, H: Hasher, lazy: bool, op: Op, s: Store, n: Node, c: Cell, x: Node, d: nat,
      out: Result)
    requires Descending(fs, H, lazy, op, s, d, out) && Holds(s, n, H(op.key)[..d]) && CellAt(s, n, c) && d < BITS
    requires c.left != null && c.left in s.cells && c.right != null && c.right in s.cells
    requires s.cells[c.left].known && s.cells[c.right].known && x == if H(op.key)[d] then c.right else c.left
    ensures AtChild(fs, H, lazy, op, s, d + 1, out) && Holds(s, x, H(op.key)[..d + 1])
    ensures JustSplit(Build(Now(s), H(op.key)[..d]), op.key) ==> s.cells[x].left == null && s.cells[x].key != op.key
  {
    hide Placed, Apart, Edit, EditChild, Marks, Climb, ClimbResult;
    ChildrenOf(s, H(op.key), d);
    DescendToChild(fs, H, lazy, op, s, d, out);
    ChildNode(fs, H, lazy, op, s, d + 1, out);
  }

  lemma LeafFacts(fs: seq<Field>, H: Hasher, lazy: bool, op: Op, s: Store, n: Node, c: Cell, d: nat, out: Result)
    requires AtChild(fs, H, lazy, op, s, d, out) && Holds(s, n, H(op.key)[..d]) && CellAt(s, n, c)
    ensures c.known && (c.left == null ==> !c.lent && c.values in s.slices && |s.slices[c.values]| == |fs|)
    ensures c.left == null && op.Add? && c.key != [] && c.key != op.key ==> d < BITS
    ensures c.left == null && c.key == op.key && op.Add? && op.key != [] ==> out == Err(KeyCollision)
    ensures c.left == null && c.key != op.key && !op.Add? ==> out == Err(KeyNotFound)
    ensures c.left != null ==> Descending(fs, H, lazy, op, s, d, out) && d < BITS
  {
    ChildNode(fs, H, lazy, op, s, d, out);
    NodeShape(s, H(op.key)[..d]);
    if c.left != null {
      ChildInner(fs, H, lazy, op, s, d, out);
    } else if op.Add? && c.key != [] && c.key != op.key {
      RoomToSplit(fs, H, lazy, op, TableOf(s), d, out);
    }
  }

  /** The leaf has been written: the way back begins. */
  lemma HitDone(fs: seq<Field>, H: Hasher, lazy: bool, op: Op, s: Store, n: Node, c: Cell, s': Store, d: nat,
      out: Result)
    requires AtChild(fs, H, lazy, op, s, d, out) && Holds(s, n, H(op.key)[..d]) && CellAt(s, n, c) && Hit(op, c)
    requires Holds(s', n, H(op.key)[..d]) && Stirs(s, s', {}) && Now(s') == Wrote(fs, op, Now(s), H(op.key)[..d])
    ensures Climbing(fs, lazy, op, s', H(op.key), d, out)
  {
    var p := H(op.key)[..d];
    HitOutcome(fs, H, lazy, op, s, n, c, d, out);
    ChildWritten(fs, H, lazy, op, s, s', d, Written(fs, op, TableOf(s)[p]), out);
  }

  lemma HitOutcome(fs: seq<Field>, H: Hasher, lazy: bool, op: Op, s: Store, n: Node, c: Cell, d: nat, out: Result)
    requires AtChild(fs, H, lazy, op, s, d, out) && Holds(s, n, H(op.key)[..d]) && CellAt(s, n, c) && Hit(op, c)
    ensures
      var p := H(op.key)[..d];
      var x := Written(fs, op, TableOf(s)[p]);
      && Build(TableOf(s), p).Leaf? && EditChild(fs, H, lazy, op, Build(TableOf(s), p), d) == Ok(Leaf(x))
      && x.known && ValuesOk(fs, x.values)
  {
    ChildNode(fs, H, lazy, op, s, d, out);
    NodeShape(s, H(op.key)[..d]);
  }

  lemma SplitLeafDone(fs: seq<Field>, H: Hasher, lazy: bool, op: Op, s: Store, n: Node, c: Cell, step: bool,
      s': Store, d: nat, out: Result)
    requires AtChild(fs, H, lazy, op, s, d, out) && Holds(s, n, H(op.key)[..d]) && CellAt(s, n, c) && d < BITS
    requires op.Add? && op.key != [] && c.left == null && c.key != [] && c.key != op.key && step == H(c.key)[d]
    requires Holds(s', n, H(op.key)[..d]) && ForksAt(s, H(op.key)[..d], s') && s'.orig == s.orig
    requires Now(s') == Parted(fs, Now(s), H(op.key)[..d], step)
    ensures Descending(fs, H, lazy, op, s', d, out) && JustSplit(Build(Now(s'), H(op.key)[..d]), op.key)
  {
    ChildNode(fs, H, lazy, op, s, d, out);
    ChildSplit(fs, H, lazy, op, s, s', d, out);
  }

  lemma ChildDeep(fs: seq<Field>, H: Hasher, lazy: bool, op: Op, s: Store, d: nat, out: Result)
    requires AtChild(fs, H, lazy, op, s, d, out)
    ensures 0 < d <= BITS && H(op.key)[..d] != []
  {
  }

  lemma SecureDone(fs: seq<Field>, H: Hasher, op: Op, s: Store, n: Node, s': Store, d: nat, out: Result)
    requires AtChild(fs, H, true, op, s, d, out) && Holds(s, n, H(op.key)[..d])
    requires Holds(s', n, H(op.key)[..d]) && Stirs(s, s', {n}) && Now(s') == Now(s)
    ensures AtChild(fs, H, true, op, s', d, out)
  {
    ChildBackup(fs, H, op, s, s', d, out);
  }

  lemma FreeDone(fs: seq<Field>, H: Hasher, op: Op, s: Store, d: nat, out: Result)
    requires AtChild(fs, H, false, op, s, d, out)
    ensures FreeAt(s, H(op.key)[..d])
  {
  }
}
