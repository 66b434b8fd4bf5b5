/** Walks over a whole subtree: what such a walk leaves alone, and how the outcome for a node
    follows from the outcomes for its children. */
module StoreSweep {
  import opened Fields
  import opened Trie
  import opened Mapping
  import opened Canonical
  import opened Lazy
  import opened Scopes
  import opened Layout
  import opened Store
  import opened StoreShape
  import opened StoreMarks
  import opened StoreSteps
  import opened StoreWalk
  import opened Upkeep
  import ByteSlice

  /** The node at path `r` is the same, and holds the same. */
  ghost predicate Kept(s: Store, r: Path, s': Store) {
    if r in s.nodes then
      && r in s'.nodes && s'.nodes[r] == s.nodes[r]
      && s.nodes[r] in s.cells && s.nodes[r] in s'.cells && s'.cells[s.nodes[r]] == s.cells[s.nodes[r]]
    else r !in s'.nodes
  }

  /** Only nodes at and below path `p` have changed. */
  ghost predicate Confined(s: Store, p: Path, s': Store) {
    && s'.root == s.root && s'.orig == s.orig
    && (forall x :: x in s.slices ==> x in s'.slices && s'.slices[x] == s.slices[x])
    && (forall r {:trigger Under(p, r)} :: !Under(p, r) ==> Kept(s, r, s'))
  }

  lemma ConfinedTable(s: Store, p: Path, s': Store)
    requires Confined(s, p, s') && Allocated(s) && Allocated(s')
    ensures SameElsewhere(TableOf(s), TableOf(s'), p)
  {
    forall r | !Under(p, r) && r in s.nodes
      ensures r in s'.nodes && DataOf(s', s'.nodes[r]) == DataOf(s, s.nodes[r]) {
      assert Kept(s, r, s');
    }
    forall r | !Under(p, r) && r !in s.nodes ensures r !in s'.nodes {
      assert Kept(s, r, s');
    }
  }

  /** Two walks, one below each child of a node. */
  lemma ConfinedBoth(s: Store, p: Path, s1: Store, s2: Store)
    requires Confined(s, p + [false], s1) && Confined(s1, p + [true], s2)
    ensures Confined(s, p, s2) && Kept(s, p, s2)
  {
    forall r | !Under(p, r) || r == p ensures Kept(s, r, s2) {
      UnderStep(p, false, r);
      UnderStep(p, true, r);
      assert Kept(s, r, s1) && Kept(s1, r, s2);
    }
  }

  lemma ConfinedNone(s: Store, p: Path)
    requires Allocated(s)
    ensures Confined(s, p, s)
  {
  }

  /** The sibling subtree is as it was. */
  lemma ConfinedSibling(s: Store, p: Path, b: bool, s': Store)
    requires Inv(s) && Inv(s') && Confined(s, p + [b], s')
    ensures Build(Now(s'), p + [!b]) == Build(Now(s), p + [!b])
    ensures Kept(s, p, s') && Kept(s, p + [!b], s')
  {
    ConfinedTable(s, p + [b], s');
    SiblingBelow(TableOf(s), TableOf(s'), p, b);
    BuildFrame(TableOf(s), TableOf(s'), p + [!b]);
    UnderStep(p, b, p);
    UnderStep(p, b, p + [!b]);
  }

  lemma SiblingBelow(m: Table, m': Table, p: Path, b: bool)
    requires SameElsewhere(m, m', p + [b])
    ensures SameBelow(m, m', p + [!b])
  {
    forall r | Under(p + [!b], r) ensures (r in m <==> r in m') && (r in m ==> m[r] == m'[r]) {
      UnderStep(p, b, r);
      UnderStep(p, !b, r);
      assert !Under(p + [b], r);
    }
  }

  /** Between operations, outside a transaction: no backups and no dead values. */
  ghost predicate Still(s: Store) {
    && Inv(s) && Quiet(s, false)
    && forall r :: r in s.nodes ==> !s.cells[s.nodes[r]].lent
  }

  lemma StillInv(s: Store)
    requires Still(s)
    ensures Inv(s)
  {
  }

  lemma StillMarks(s: Store)
    requires Still(s)
    ensures Marks(s, false, [], 0)
  {
    var n: nat := 0;
    forall p, k: nat ensures ReachAt(s, s.nodes, false, [], n, p, k) {
    }
    forall p, k: nat ensures ReachAt(s, s.orig, false, [], n, p, k) {
    }
    forall r, k: nat ensures LentAt(s, false, [], n, r, k) {
    }
  }

  lemma ProperStill(fs: seq<Field>, H: Hasher, scope: Scope, s: Store)
    requires Proper(fs, H, scope, false, s)
    ensures Still(s)
  {
    forall r | r in s.nodes ensures !s.cells[s.nodes[r]].lent {
      assert LentAt(s, false, [], 0, r, 0);
    }
  }

  lemma StillFree(s: Store, n: Node, p: Path)
    requires Still(s) && Holds(s, n, p)
    ensures FreeAt(s, p)
  {
  }

  /** A node and its children. */
  lemma StillChildren(s: Store, n: Node, p: Path, c: Cell)
    requires Still(s) && Holds(s, n, p) && CellAt(s, n, c)
    ensures Build(Now(s), p).d.known == c.known && (Build(Now(s), p).Leaf? <==> c.left == null)
    ensures Build(Now(s), p).d == DataOf(s, n) && (c.left == null <==> c.right == null)
    ensures c.left != null ==> |p| < BITS && c.left in s.cells && c.right in s.cells
    ensures c.left != null ==> Holds(s, c.left, p + [false]) && Holds(s, c.right, p + [true])
    ensures c.left != null ==>
      Build(Now(s), p).left == Build(Now(s), p + [false]) && Build(Now(s), p).right == Build(Now(s), p + [true])
  {
    NodeShape(s, p);
  }

  lemma StillSame(s: Store, p: Path)
    requires Still(s)
    ensures Confined(s, p, s)
  {
    ConfinedNone(s, p);
  }

  /** After a walk below the left child, the node and its right child are as they were. */
  lemma SiblingHolds(s: Store, n: Node, p: Path, c: Cell, s': Store)
    requires Still(s) && Still(s') && Holds(s, n, p) && CellAt(s, n, c) && c.left != null && c.right != null
    requires Confined(s, p + [false], s')
    ensures Holds(s', n, p) && CellAt(s', n, c) && Holds(s', c.right, p + [true])
    ensures c.right in s.cells && CellAt(s', c.right, s.cells[c.right])
  {
    StillChildren(s, n, p, c);
    ConfinedSibling(s, p, false, s');
  }

  // ---- pruning ----

  lemma PruneDone(s: Store, n: Node, p: Path, o: Cell, c: Cell, s': Store)
    requires Still(s) && Holds(s, n, p) && CellAt(s, n, o) && OneCell(s, p, c, s') && s'.nodes == CutNodes(s.nodes, p)
    requires c == o.(known := false, key := [], values := c.values, left := null, right := null, lent := false)
    requires c.values !in s.slices && c.values in s'.slices && s'.slices[c.values] == []
    ensures Still(s') && Holds(s', n, p) && Confined(s, p, s')
    ensures Build(Now(s'), p) == Prune(Build(Now(s), p))
  {
    CutDone(s, p, c, s', p);
    NodeShape(s, p);
    PruneConfined(s, p, c, s');
    TablePrefixed(s);
    CutBuild(TableOf(s), p, DataOf(s', n));
    assert Under(p, p);
  }

  lemma PruneConfined(s: Store, p: Path, c: Cell, s': Store)
    requires Inv(s) && Cuts(s, p, c, s')
    ensures Confined(s, p, s')
  {
    assert Under(p, p);
    forall r | !Under(p, r) ensures Kept(s, r, s') {
      assert r in s.nodes ==> s.nodes[r] != s.nodes[p];
    }
  }

  // ---- collecting ----

  lemma SpellMore(path: Bytes, p: Path, b: bool)
    requires Spells(path, p) && |p| < 8 * |path|
    ensures |ByteSlice.Assign(path, |p|, b)| == |path| && Spells(ByteSlice.Assign(path, |p|, b), p + [b])
  {
    forall i: nat | i < |p| + 1 ensures ByteSlice.Bit(ByteSlice.Assign(path, |p|, b), i) == (p + [b])[i] {
      ByteSlice.AssignBit(path, |p|, b, i);
    }
  }

  /** Both subtrees of an internal node have been walked over. */
  lemma JoinTree(s: Store, n: Node, p: Path, s1: Store, s2: Store)
    requires Inv(s) && Inv(s1) && Inv(s2) && Holds(s, n, p) && Build(Now(s), p).Inner?
    requires Confined(s, p + [false], s1) && Confined(s1, p + [true], s2)
    ensures Holds(s2, n, p) && Confined(s, p, s2) && Kept(s, p, s2)
    ensures Build(Now(s1), p + [true]) == Build(Now(s), p + [true])
    ensures Build(Now(s2), p) == Inner(Build(Now(s), p).d, Build(Now(s1), p + [false]), Build(Now(s2), p + [true]))
  {
    ConfinedBoth(s, p, s1, s2);
    ConfinedSibling(s, p, false, s1);
    ConfinedSibling(s1, p, true, s2);
    NodeShape(s, p);
    NodeShape(s2, p);
  }

  lemma CollectDone(scope: Scope, s: Store, n: Node, p: Path, s1: Store, s2: Store)
    requires ScopeOk(scope) && Still(s) && Holds(s, n, p) && Build(Now(s), p).Inner?
    requires Still(s1) && Confined(s, p + [false], s1)
    requires Build(Now(s1), p + [false]) == CollectAt(scope, Build(Now(s), p + [false]), p + [false])
    requires Still(s2) && Confined(s1, p + [true], s2)
    requires Build(Now(s2), p + [true]) == CollectAt(scope, Build(Now(s1), p + [true]), p + [true])
    ensures Holds(s2, n, p) && Confined(s, p, s2)
    ensures Build(Now(s2), p) == Inner(Build(Now(s), p).d,
      CollectAt(scope, Build(Now(s), p + [false]), p + [false]),
        CollectAt(scope, Build(Now(s), p + [true]), p + [true]))
  {
    JoinTree(s, n, p, s1, s2);
  }

  lemma SpellNothing(path: Bytes)
    ensures Spells(path, [])
  {
  }

  lemma ProperRootStill(fs: seq<Field>, H: Hasher, scope: Scope, s: Store)
    requires Proper(fs, H, scope, false, s)
    ensures Still(s) && Holds(s, s.root, []) && ScopeOk(scope)
    ensures TreeNow(s).d.known ==> TreeNow(s).Inner?
  {
    ProperStill(fs, H, scope, s);
    ProperRoot(fs, H, scope, false, s);
  }

  /** The scope lets nothing through exactly if it lets the empty path through nowhere. */
  lemma ScopeOfRoot(scope: Scope)
    requires ScopeOk(scope)
    ensures ScopeMatch(scope, [], 0) <==> scope != SCOPE_NONE
  {
    if scope.masks != [] {
      assert MaskMatch(scope.masks[0], [], 0);
    }
  }

  lemma CollectRootDone(scope: Scope, s: Store, n: Node, s1: Store, s2: Store)
    requires ScopeOk(scope) && scope != SCOPE_NONE && Still(s) && Holds(s, n, []) && TreeNow(s).Inner?
      && TreeNow(s).d.known
    requires Still(s1) && Confined(s, [] + [false], s1)
    requires Build(Now(s1), [] + [false]) == CollectAt(scope, Build(Now(s), [] + [false]), [] + [false])
    requires Still(s2) && Confined(s1, [] + [true], s2)
    requires Build(Now(s2), [] + [true]) == CollectAt(scope, Build(Now(s1), [] + [true]), [] + [true])
    ensures TreeNow(s2) == Collect(scope, TreeNow(s))
  {
    hide Confined, Now, Build, CollectAt, Still, Holds;
    assert [] + [false] == [false] && [] + [true] == [true];
    HoldsCell(s, n, []);
    StillChildren(s, n, [], s.cells[n]);
    CollectDone(scope, s, n, [], s1, s2);
  }

  lemma CollectProper(fs: seq<Field>, H: Hasher, scope: Scope, s: Store, s': Store)
    requires Proper(fs, H, scope, false, s) && Still(s') && TreeNow(s') == Collect(scope, TreeNow(s))
    ensures Proper(fs, H, scope, false, s')
  {
    StillMarks(s');
    CollectUpright(fs, H, scope, TreeNow(s));
  }

  // ---- a node without children is written, or gets children ----

  /** The node as written: everything but its flag and its links is new. */
  ghost predicate WrittenCell(s: Store, o: Cell, c: Cell, s': Store, known: bool, lbl: Label, key: Bytes,
      vs: seq<Bytes>) {
    && c == o.(known := known, lbl := lbl, key := key, values := c.values, lent := false, left := c.left,
       right := c.right)
    && c.values !in s.slices && c.values in s'.slices && s'.slices[c.values] == vs
  }

  lemma WriteLeafDone(s: Store, n: Node, p: Path, o: Cell, c: Cell, s': Store, known: bool, lbl: Label, key: Bytes,
      vs: seq<Bytes>)
    requires Still(s) && Holds(s, n, p) && CellAt(s, n, o) && o.left == null
    requires OneCell(s, p, c, s') && s'.nodes == s.nodes && c.left == null && c.right == null
    requires WrittenCell(s, o, c, s', known, lbl, key, vs)
    ensures Still(s') && Holds(s', n, p) && Confined(s, p, s')
    ensures Build(Now(s'), p) == Leaf(NodeData(known, lbl, key, vs, o.inconsistent))
  {
    hide Lineage, SavedAlive, OnePlace, Stirs, Unshared, BackupsApart, SavedApart, AllSavedLinked, Confined;
    StillFree(s, n, p);
    NodeShape(s, p);
    WriteDone(s, p, c, s', {}, c.key);
    PutData(TableOf(s), p, DataOf(s', n));
    OneCellConfined(s, n, p, c, s');
  }

  lemma OneCellConfined(s: Store, n: Node, p: Path, c: Cell, s': Store)
    requires Inv(s) && Holds(s, n, p) && OneCell(s, p, c, s') && s'.nodes == s.nodes
    ensures Confined(s, p, s')
  {
    assert Under(p, p);
    forall r | !Under(p, r) ensures Kept(s, r, s') {
      assert r in s.nodes ==> s.nodes[r] != s.nodes[p];
    }
  }

  lemma OpenBranches(s: Store, n: Node, p: Path, o: Cell, c: Cell, l: Node, cl: Cell, r: Node, cr: Cell, s': Store)
    requires Still(s) && Holds(s, n, p) && CellAt(s, n, o) && FreeAt(s, p) && |p| < BITS && o.left == null
    requires l !in s.cells && r !in s.cells && l != r && s'.root == s.root && s'.orig == s.orig
    requires s'.nodes == s.nodes[p + [false] := l][p + [true] := r] && s'.cells == s.cells[l := cl][r := cr][n := c]
    requires forall a :: a in s.slices ==> a in s'.slices && s'.slices[a] == s.slices[a]
    requires c == o.(known := c.known, lbl := c.lbl, key := c.key, values := c.values, lent := false, left := l,
      right := r)
    requires cl == Cell(false, cl.lbl, [], cl.values, false, false, None, n, null, null)
    requires cr == Cell(false, cr.lbl, [], cr.values, false, false, None, n, null, null)
    requires c.values !in s.slices && cl.values !in s.slices && cr.values !in s.slices
    requires c.values in s'.slices && cl.values in s'.slices && cr.values in s'.slices
    requires cl.values != cr.values && c.values != cl.values && c.values != cr.values
    ensures Branches(s, p, c, l, cl, r, cr, s')
  {
  }

  lemma OpenDone(s: Store, n: Node, p: Path, o: Cell, c: Cell, l: Node, cl: Cell, r: Node, cr: Cell, s': Store,
                 known: bool, lbl: Label, key: Bytes, vs: seq<Bytes>)
    requires Still(s) && Holds(s, n, p) && CellAt(s, n, o) && o.left == null && Branches(s, p, c, l, cl, r, cr, s')
    requires WrittenCell(s, o, c, s', known, lbl, key, vs)
    requires !cl.known && cl.key == [] && s'.slices[cl.values] == [] && !cr.known && cr.key == []
      && s'.slices[cr.values] == []
    ensures Still(s') && Holds(s', n, p) && Confined(s, p, s') && Holds(s', l, p + [false])
      && Holds(s', r, p + [true])
    ensures
      Build(Now(s'), p) == Inner(NodeData(known, lbl, key, vs, o.inconsistent),
        Leaf(NodeData(false, cl.lbl, [], [], false)), Leaf(NodeData(false, cr.lbl, [], [], false)))
  {
    hide Forks, Confined, Inv, Still, Allocated;
    OpenStart(s, n, p, o);
    BranchDone(s, p, c, l, cl, r, cr, s');
    InvAllocated(s');
    OpenStill(s, n, p, c, l, cl, r, cr, s');
    OpenConfined(s, n, p, c, l, cl, r, cr, s');
    OpenTree(s, n, p, c, l, cl, r, cr, s');
    ChildPaths(p);
  }

  lemma OpenStart(s: Store, n: Node, p: Path, o: Cell)
    requires Still(s) && Holds(s, n, p) && CellAt(s, n, o) && o.left == null
    ensures Inv(s) && Allocated(s) && Childless(TableOf(s), p)
  {
    NodeShape(s, p);
  }

  lemma OpenTree(s: Store, n: Node, p: Path, c: Cell, l: Node, cl: Cell, r: Node, cr: Cell, s': Store)
    requires Inv(s) && Holds(s, n, p) && Branches(s, p, c, l, cl, r, cr, s') && Childless(TableOf(s), p) && Inv(s')
    requires TableOf(s') == Branch(TableOf(s), p, DataOf(s', n), DataOf(s', l), DataOf(s', r))
    ensures Build(Now(s'), p) == Inner(DataOf(s', n), Leaf(DataOf(s', l)), Leaf(DataOf(s', r)))
  {
    TablePrefixed(s);
    BranchBuild(TableOf(s), p, DataOf(s', n), DataOf(s', l), DataOf(s', r));
  }

  lemma OpenStill(s: Store, n: Node, p: Path, c: Cell, l: Node, cl: Cell, r: Node, cr: Cell, s': Store)
    requires Still(s) && Holds(s, n, p) && Branches(s, p, c, l, cl, r, cr, s') && Inv(s') && !c.lent
    ensures Still(s')
  {
    ChildPaths(p);
    forall q | q in s'.nodes ensures s'.cells[s'.nodes[q]].backup == None && !s'.cells[s'.nodes[q]].lent {
    }
  }

  lemma OpenConfined(s: Store, n: Node, p: Path, c: Cell, l: Node, cl: Cell, r: Node, cr: Cell, s': Store)
    requires Inv(s) && Holds(s, n, p) && Branches(s, p, c, l, cl, r, cr, s')
    ensures Confined(s, p, s')
  {
    assert Under(p, p) && Under(p, p + [false]) && Under(p, p + [true]);
    forall q | !Under(p, q) ensures Kept(s, q, s') {
      assert q in s.nodes ==> s.nodes[q] != s.nodes[p];
    }
  }
}
