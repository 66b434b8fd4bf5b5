/** The end of a transaction: walks that reach every node with a backup, and either drop the
    backups or put them back in place; and what the collection is afterwards. */
module StoreEnd {
  import opened Fields
  import opened Trie
  import opened Mapping
  import opened Canonical
  import opened Lazy
  import opened Scopes
  import opened Layout
  import opened Undo
  import opened Store
  import opened StoreShape
  import opened StoreMarks
  import opened StoreSteps
  import opened StoreWalk
  import opened StoreSweep
  import opened StoreFlags
  import opened Upkeep

  /** A node after restore. */
  ghost function Restored(c: Cell): Cell {
    if c.backup.Some? then
      var b := c.backup.value;
      Cell(b.known, b.lbl, b.key, b.values, b.inconsistent, false, None, b.parent, b.left, b.right)
    else c
  }

  /** A node after the visit: restored, or without its backup. */
  ghost function Visited(undo: bool, c: Cell): Cell {
    if undo then Restored(c) else c.(backup := None)
  }

  ghost predicate VisitedLinks(s: Store, at: map<Path, Node>, undo: bool, p: Path)
    requires p in at && at[p] in s.cells
  {
    var c := Visited(undo, s.cells[at[p]]);
    LinkedIn(s.root, at, p, c.parent, c.left, c.right)
  }

  /** The walk over the nodes `at`, each at its path, can reach all nodes with a backup. */
  ghost predicate Walkable(s: Store, at: map<Path, Node>, undo: bool) {
    && [] in at && OnePath(at, at)
    && (forall p :: p in at ==> at[p] in s.cells)
    && (forall p {:trigger VisitedLinks(s, at, undo, p)} :: p in at ==> VisitedLinks(s, at, undo, p))
    && Reach(s, at, false, [], 0)
  }

  /** Nothing at or below `p` has been visited yet. */
  ghost predicate Pending(s0: Store, at: map<Path, Node>, p: Path, s: Store) {
    && s.root == s0.root && s.cells.Keys == s0.cells.Keys
    && forall r {:trigger Under(p, r)} :: Under(p, r) && r in at && at[r] in s0.cells ==>
       s.cells[at[r]] == s0.cells[at[r]]
  }

  /** Exactly the nodes at and below `p` have been visited. */
  ghost predicate Walked(s: Store, at: map<Path, Node>, p: Path, undo: bool, s': Store) {
    && s' == s.(cells := s'.cells) && s'.cells.Keys == s.cells.Keys
    && (forall r {:trigger Under(p, r)} :: r in at && at[r] in s.cells ==>
          s'.cells[at[r]] == if Under(p, r) then Visited(undo, s.cells[at[r]]) else s.cells[at[r]])
    && (forall m :: m in s.cells && m !in at.Values ==> s'.cells[m] == s.cells[m])
  }

  lemma WalkSkip(s0: Store, at: map<Path, Node>, undo: bool, p: Path, s: Store)
    requires Walkable(s0, at, undo) && p in at && Pending(s0, at, p, s) && !Touched(s.cells[at[p]])
    ensures Walked(s, at, p, undo, s)
  {
    assert Under(p, p);
    forall r | Under(p, r) && r in at ensures s.cells[at[r]].backup == None {
      if r != p {
        assert ReachAt(s0, at, false, [], 0, r, |p|);
        assert r[..|p|] == p;
      }
    }
  }

  lemma WalkLinks(s0: Store, at: map<Path, Node>, undo: bool, p: Path, s: Store)
    requires Walkable(s0, at, undo) && p in at && Pending(s0, at, p, s)
    ensures |p| <= BITS && at[p] in s.cells
    ensures
      var c := Visited(undo, s.cells[at[p]]);
      if c.left == null then c.right == null && p + [false] !in at && p + [true] !in at
      else
        && c.right != null && |p| < BITS
        && p + [false] in at && at[p + [false]] == c.left && p + [true] in at && at[p + [true]] == c.right
  {
    assert Under(p, p);
    assert VisitedLinks(s0, at, undo, p);
    if p + [false] in at {
      assert VisitedLinks(s0, at, undo, p + [false]);
    }
  }

  lemma {:induction false} NoneBelow(s0: Store, at: map<Path, Node>, undo: bool, p: Path, r: Path)
    requires Walkable(s0, at, undo) && r in at && Under(p, r) && p + [false] !in at && p + [true] !in at
    ensures r == p
    decreases |r|
  {
    if r != p {
      assert VisitedLinks(s0, at, undo, r);
      UpLast(r);
      if Up(r) == p {
        assert false;
      } else {
        assert Under(p, Up(r));
        NoneBelow(s0, at, undo, p, Up(r));
      }
    }
  }

  ghost predicate VisitsOne(s: Store, n: Node, undo: bool, s': Store) {
    n in s.cells && s' == s.(cells := s.cells[n := Visited(undo, s.cells[n])])
  }

  lemma WalkLeaf(s0: Store, at: map<Path, Node>, undo: bool, p: Path, s: Store, s1: Store)
    requires Walkable(s0, at, undo) && p in at && Pending(s0, at, p, s) && VisitsOne(s, at[p], undo, s1)
    requires Visited(undo, s.cells[at[p]]).left == null
    ensures Walked(s, at, p, undo, s1)
  {
    WalkLinks(s0, at, undo, p, s);
    assert Under(p, p);
    forall r | r in at && Under(p, r) ensures r == p {
      NoneBelow(s0, at, undo, p, r);
    }
    forall r | r in at && at[r] == at[p] ensures r == p {
    }
  }

  lemma WalkDown(s0: Store, at: map<Path, Node>, undo: bool, p: Path, b: bool, s: Store, s1: Store)
    requires Walkable(s0, at, undo) && p in at && Pending(s0, at, p, s) && VisitsOne(s, at[p], undo, s1)
    ensures Pending(s0, at, p + [b], s1)
  {
    forall r | Under(p + [b], r) && r in at && at[r] in s0.cells ensures s1.cells[at[r]] == s0.cells[at[r]] {
      UnderStep(p, b, r);
      assert r != p;
    }
  }

  lemma WalkAcross(s0: Store, at: map<Path, Node>, undo: bool, p: Path, s1: Store, s2: Store)
    requires Walkable(s0, at, undo) && p in at && Pending(s0, at, p + [true], s1)
      && Walked(s1, at, p + [false], undo, s2)
    ensures Pending(s0, at, p + [true], s2)
    ensures at[p] in s1.cells && at[p] in s2.cells && s2.cells[at[p]] == s1.cells[at[p]]
  {
    forall r | Under(p + [true], r) && r in at && at[r] in s0.cells ensures s2.cells[at[r]] == s0.cells[at[r]] {
      UnderStep(p, true, r);
      UnderStep(p, false, r);
    }
    UnderStep(p, false, p);
  }

  lemma WalkBoth(s0: Store, at: map<Path, Node>, undo: bool, p: Path, s: Store, s1: Store, s2: Store, s3: Store)
    requires Walkable(s0, at, undo) && p in at && Pending(s0, at, p, s) && VisitsOne(s, at[p], undo, s1)
    requires Walked(s1, at, p + [false], undo, s2) && Walked(s2, at, p + [true], undo, s3)
    ensures Walked(s, at, p, undo, s3)
  {
    forall r | r in at && at[r] in s.cells
      ensures s3.cells[at[r]] == if Under(p, r) then Visited(undo, s.cells[at[r]]) else s.cells[at[r]]
    {
      UnderStep(p, false, r);
      UnderStep(p, true, r);
      if Under(p, r) && |r| == |p| {
        assert r == p;
      } else if Under(p, r) {
        assert Under(p + [false], r) != Under(p + [true], r);
      }
    }
  }

  // ---- relabelling the flagged nodes ----

  ghost predicate Mending(s: Store) {
    Inv(s) && Quiet(s, false)
  }

  /** Dead values below `p` are found in internal nodes that are reached through flagged ones. */
  ghost predicate LentBelow(s: Store, p: Path) {
    Allocated(s) && forall r, k: nat :: Under(p, r) && |p| <= k ==> LentAt(s, true, [], 0, r, k)
  }

  ghost predicate NoneLent(s: Store, p: Path) {
    forall r {:trigger Under(p, r)} :: Under(p, r) && r in s.nodes && s.nodes[r] in s.cells ==>
      !s.cells[s.nodes[r]].lent
  }

  lemma MendSkip(fs: seq<Field>, s: Store, n: Node, p: Path, c: Cell)
    requires Mending(s) && Holds(s, n, p) && CellAt(s, n, c) && LentBelow(s, p) && !c.inconsistent
    ensures NoneLent(s, p) && Confined(s, p, s) && Fix(fs, Build(Now(s), p)) == Build(Now(s), p)
  {
    forall r | Under(p, r) && r in s.nodes ensures !s.cells[s.nodes[r]].lent {
      assert r[..|p|] == p;
      assert LentAt(s, true, [], 0, r, |p|);
    }
    ConfinedNone(s, p);
    NodeShape(s, p);
  }

  lemma RepairableParts(fs: seq<Field>, t: Tree)
    requires Repairable(fs, t) && t.Inner?
    ensures Repairable(fs, t.left) && Repairable(fs, t.right)
  {
  }

  lemma MendChild(fs: seq<Field>, s: Store, n: Node, p: Path, c: Cell, b: bool)
    requires Mending(s) && Holds(s, n, p) && CellAt(s, n, c) && LentBelow(s, p) && Repairable(fs, Build(Now(s), p))
    requires c.left != null && c.right != null
    ensures |p| < BITS && Holds(s, if b then c.right else c.left, p + [b])
    ensures LentBelow(s, p + [b]) && Repairable(fs, Build(Now(s), p + [b]))
  {
    NodeShape(s, p);
    RepairableParts(fs, Build(TableOf(s), p));
    forall r, k: nat | Under(p + [b], r) && |p + [b]| <= k ensures LentAt(s, true, [], 0, r, k) {
      UnderStep(p, b, r);
    }
  }

  /** The subtree below the left child has been put right; that below the right is next. */
  lemma MendAcross(fs: seq<Field>, s: Store, n: Node, p: Path, c: Cell, s1: Store)
    requires Mending(s) && Holds(s, n, p) && CellAt(s, n, c) && c.left != null && c.right != null
    requires Holds(s, c.right, p + [true]) && LentBelow(s, p + [true]) && Repairable(fs, Build(Now(s), p + [true]))
    requires Mending(s1) && Confined(s, p + [false], s1)
    ensures Holds(s1, n, p) && CellAt(s1, n, c) && Holds(s1, c.right, p + [true])
    ensures LentBelow(s1, p + [true]) && Repairable(fs, Build(Now(s1), p + [true]))
  {
    ConfinedSibling(s, p, false, s1);
    forall r, k: nat | Under(p + [true], r) && |p + [true]| <= k ensures LentAt(s1, true, [], 0, r, k) {
      assert LentAt(s, true, [], 0, r, k);
      UnderStep(p, true, r);
      UnderStep(p, false, r);
      assert Kept(s, r, s1);
      if k <= |r| {
        assert Under(p + [true], r[..k]);
        UnderStep(p, true, r[..k]);
        UnderStep(p, false, r[..k]);
        assert Kept(s, r[..k], s1);
      }
    }
  }

  ghost function ChildrenFixed(fs: seq<Field>, t: Tree): Tree {
    match t
    case Leaf(_) => t
    case Inner(d, l, r) => Inner(d, Fix(fs, l), Fix(fs, r))
  }

  /** If both children of the node are known, it can be relabelled from them. */
  ghost predicate RenewOk(fs: seq<Field>, s: Store, p: Path) {
    var t := Build(Now(s), p);
    t.Inner? && t.left.d.known && t.right.d.known ==> CanRelabelAt(fs, s, p)
  }

  /** Nothing strictly below `p` has dead values, and the node itself only if it can be relabelled. */
  ghost predicate RenewEnds(fs: seq<Field>, s: Store, p: Path) {
    forall r {:trigger Under(p, r)} ::
      Under(p, r) && r in s.nodes && s.nodes[r] in s.cells && s.cells[s.nodes[r]].lent ==>
        r == p && CanRelabelAt(fs, s, p)
  }

  lemma MendLeaf(fs: seq<Field>, s: Store, n: Node, p: Path, c: Cell)
    requires Mending(s) && Holds(s, n, p) && CellAt(s, n, c) && LentBelow(s, p) && c.left == null
    ensures RenewOk(fs, s, p) && RenewEnds(fs, s, p) && Confined(s, p, s)
    ensures Build(Now(s), p) == ChildrenFixed(fs, Build(Now(s), p))
  {
    NodeShape(s, p);
    TablePrefixed(s);
    forall r | Under(p, r) && r in s.nodes ensures !s.cells[s.nodes[r]].lent {
      NothingBelow(TableOf(s), p, r);
      assert LentAt(s, true, [], 0, p, |p|);
    }
    ConfinedNone(s, p);
  }

  lemma MendJoinTree(fs: seq<Field>, s: Store, n: Node, p: Path, c: Cell, s1: Store, s2: Store)
    requires Mending(s) && Holds(s, n, p) && CellAt(s, n, c) && c.left != null
    requires Mending(s1) && Confined(s, p + [false], s1) && Mending(s2) && Confined(s1, p + [true], s2)
    requires Build(Now(s1), p + [false]) == Fix(fs, Build(Now(s), p + [false]))
    requires Build(Now(s2), p + [true]) == Fix(fs, Build(Now(s1), p + [true]))
    ensures Holds(s2, n, p) && CellAt(s2, n, c) && Confined(s, p, s2) && Build(Now(s), p).Inner?
    ensures Build(Now(s2), p) == ChildrenFixed(fs, Build(Now(s), p))
  {
    NodeShape(s, p);
    JoinTree(s, n, p, s1, s2);
  }

  lemma MendRenewable(fs: seq<Field>, s2: Store, n: Node, p: Path, c: Cell, t: Tree)
    requires Mending(s2) && Holds(s2, n, p) && CellAt(s2, n, c) && c.left != null && t.Inner? && Repairable(fs, t)
    requires Build(Now(s2), p) == ChildrenFixed(fs, t) && t.d == DataOf(s2, n)
    requires NoneLent(s2, p + [false]) && NoneLent(s2, p + [true])
    ensures RenewOk(fs, s2, p) && (c.lent ==> CanRelabelAt(fs, s2, p))
  {
    NodeShape(s2, p);
    RepairableParts(fs, t);
    FixRepairs(fs, t.left);
    FixRepairs(fs, t.right);
    assert Under(p + [false], p + [false]) && Under(p + [true], p + [true]);
    if t.left.d.known && t.right.d.known {
      SettledValues(fs, Fix(fs, t.left));
      SettledValues(fs, Fix(fs, t.right));
    }
  }

  lemma MendEnds(fs: seq<Field>, s2: Store, p: Path)
    requires NoneLent(s2, p + [false]) && NoneLent(s2, p + [true])
    requires p in s2.nodes && s2.nodes[p] in s2.cells && s2.cells[s2.nodes[p]].lent ==> CanRelabelAt(fs, s2, p)
    ensures RenewEnds(fs, s2, p)
  {
    forall r | Under(p, r) && r in s2.nodes && s2.nodes[r] in s2.cells && s2.cells[s2.nodes[r]].lent
      ensures r == p && CanRelabelAt(fs, s2, p)
    {
      UnderStep(p, false, r);
      UnderStep(p, true, r);
      if |r| == |p| {
        assert r == p;
      }
    }
  }

  /** Both children of a flagged node have been put right. */
  lemma MendJoin(fs: seq<Field>, s: Store, n: Node, p: Path, c: Cell, s1: Store, s2: Store)
    requires Mending(s) && Holds(s, n, p) && CellAt(s, n, c) && c.left != null && Repairable(fs, Build(Now(s), p))
    requires Mending(s1) && Confined(s, p + [false], s1) && Mending(s2) && Confined(s1, p + [true], s2)
    requires Build(Now(s1), p + [false]) == Fix(fs, Build(Now(s), p + [false])) && NoneLent(s1, p + [false])
    requires Build(Now(s2), p + [true]) == Fix(fs, Build(Now(s1), p + [true])) && NoneLent(s2, p + [true])
    ensures Holds(s2, n, p) && CellAt(s2, n, c) && Confined(s, p, s2) && Build(Now(s), p).Inner?
    ensures Build(Now(s2), p) == ChildrenFixed(fs, Build(Now(s), p))
    ensures RenewOk(fs, s2, p) && RenewEnds(fs, s2, p)
  {
    MendJoinTree(fs, s, n, p, c, s1, s2);
    MendStaysLive(s1, p, s2);
    NodeShape(s, p);
    NodeShape(s2, p);
    MendRenewable(fs, s2, n, p, c, Build(Now(s), p));
    MendEnds(fs, s2, p);
  }

  lemma MendStaysLive(s1: Store, p: Path, s2: Store)
    requires Confined(s1, p + [true], s2) && NoneLent(s1, p + [false])
    ensures NoneLent(s2, p + [false])
  {
    forall r | Under(p + [false], r) && r in s2.nodes && s2.nodes[r] in s2.cells ensures !s2.cells[s2.nodes[r]].lent {
      UnderStep(p, false, r);
      UnderStep(p, true, r);
      assert Kept(s1, r, s2);
    }
  }

  // ---- one node is put right ----

  /** update on a node whose flag has been cleared */
  ghost function Refreshed(fs: seq<Field>, t: Tree): Tree {
    match t
    case Leaf(d) => Update(fs, Leaf(d.(dirty := false)))
    case Inner(d, l, r) => Update(fs, Inner(d.(dirty := false), l, r))
  }

  /** The label and the values may be new, and the flag is gone. */
  ghost predicate Renews(s: Store, n: Node, p: Path, c: Cell, s': Store) {
    && Holds(s, n, p) && n in s.cells && s'.root == s.root && s'.nodes == s.nodes && s'.orig == s.orig
    && s'.cells == s.cells[n := c] && c.values in s'.slices
    && (forall x :: x in s.slices ==> x in s'.slices && s'.slices[x] == s.slices[x])
    && var o := s.cells[n];
    && c == o.(values := c.values, lbl := c.lbl, lent := c.lent, inconsistent := false)
    && (if c.values == o.values then c.lent == o.lent else c.values !in s.slices && !c.lent)
  }

  lemma RenewsWrites(s: Store, n: Node, p: Path, c: Cell, s': Store)
    requires Mending(s) && Renews(s, n, p, c, s')
    ensures Writes(s, p, c, s')
  {
    assert c.backup == None;
  }

  lemma RenewsDone(s: Store, n: Node, p: Path, c: Cell, s': Store)
    requires Mending(s) && Renews(s, n, p, c, s')
    ensures Mending(s') && Holds(s', n, p) && Confined(s, p, s')
    ensures Now(s') == Now(s)[p := DataOf(s', n)]
  {
    RenewsWrites(s, n, p, c, s');
    WriteInv(s, p, c, s');
    assert Under(p, p);
    forall r | !Under(p, r) ensures Kept(s, r, s') {
      assert r in s.nodes ==> s.nodes[r] != s.nodes[p];
    }
  }

  /** What update makes of the node, and whether it still has dead values. */
  lemma RenewsTree(fs: seq<Field>, s: Store, n: Node, p: Path, t: Tree, c: Cell, s': Store)
    requires Mending(s) && Renews(s, n, p, c, s') && RenewOk(fs, s, p) && RenewEnds(fs, s, p)
    requires t == Build(Now(s), p) && DataOf(s', n) == Update(fs, t).d.(dirty := false)
    requires CanRelabelAt(fs, s, p) ==> !c.lent
    ensures Mending(s') && Holds(s', n, p) && Confined(s, p, s') && NoneLent(s', p)
    ensures Build(Now(s'), p) == Refreshed(fs, t)
  {
    RenewsDone(s, n, p, c, s');
    NodeShape(s, p);
    PutData(TableOf(s), p, DataOf(s', n));
    forall r | Under(p, r) && r in s'.nodes && s'.nodes[r] in s'.cells ensures !s'.cells[s'.nodes[r]].lent {
      assert Under(p, p);
      assert r != p ==> s.nodes[r] != s.nodes[p];
    }
  }

  /** The cell of node `n` after update, whatever came of it, and with its flag cleared. */
  ghost predicate RenewedCell(fs: seq<Field>, s: Store, n: Node, c: Cell, s': Store) {
    n in s.cells && s.cells[n].values in s.slices && c.values in s'.slices &&
    var o := s.cells[n];
    && c == o.(values := c.values, lbl := c.lbl, lent := c.lent, inconsistent := false)
    && (if !o.known then c == o.(inconsistent := false)
        else if o.left == null then c == o.(lbl := LeafLabel(o.key, s.slices[o.values]), inconsistent := false)
        else RenewedInner(fs, s, o, c, s'))
  }

  ghost predicate RenewedInner(fs: seq<Field>, s: Store, o: Cell, c: Cell, s': Store)
    requires c.values in s'.slices && o.left != null
  {
    && o.right != null && o.left in s.cells && o.right in s.cells
    && var l, r := s.cells[o.left], s.cells[o.right];
    if l.known && r.known then
      && l.values in s.slices && r.values in s.slices && ValuesOk(fs, s.slices[l.values])
         && ValuesOk(fs, s.slices[r.values])
      && c.values !in s.slices && !c.lent && s'.slices[c.values] == ParentValues(fs, s.slices[l.values],
         s.slices[r.values])
      && c.lbl == InnerLabel(s'.slices[c.values], l.lbl, r.lbl)
    else c == o.(inconsistent := false)
  }

  /** What update did, case by case. */
  lemma RenewedFrom(fs: seq<Field>, s: Store, n: Node, p: Path, o: Cell, l: Cell, r: Cell, c: Cell, s': Store)
    requires CellAt(s, n, o) && o.values in s.slices && OneCell(s, p, c, s')
    requires o.left == null <==> o.right == null
    requires o.left != null ==>
      CellAt(s, o.left, l) && CellAt(s, o.right, r) && l.values in s.slices && r.values in s.slices
    requires c == o.(values := c.values, lbl := c.lbl, lent := c.lent, inconsistent := false)
    requires !o.known || (o.left != null && !(l.known && r.known)) ==>
      c.values == o.values && c.lbl == o.lbl && c.lent == o.lent
    requires o.known && o.left == null ==>
      c.values == o.values && c.lent == o.lent && c.lbl == LeafLabel(o.key, s.slices[o.values])
    requires o.left != null && l.known && r.known ==>
      ValuesOk(fs, s.slices[l.values]) && ValuesOk(fs, s.slices[r.values])
    requires o.known && o.left != null && l.known && r.known ==>
      && c.values !in s.slices && !c.lent && s'.slices[c.values] == ParentValues(fs, s.slices[l.values],
         s.slices[r.values])
      && c.lbl == InnerLabel(s'.slices[c.values], l.lbl, r.lbl)
    ensures RenewedCell(fs, s, n, c, s')
  {
  }

  lemma RenewReady(fs: seq<Field>, s: Store, n: Node, p: Path, o: Cell)
    requires Mending(s) && Holds(s, n, p) && CellAt(s, n, o) && RenewOk(fs, s, p)
    ensures o.values in s.slices && (o.left == null <==> o.right == null)
    ensures o.left != null ==> o.left in s.cells && o.right in s.cells
    ensures o.left != null ==> s.cells[o.left].values in s.slices && s.cells[o.right].values in s.slices
    ensures o.left != null && s.cells[o.left].known && s.cells[o.right].known ==>
      ValuesOk(fs, s.slices[s.cells[o.left].values]) && ValuesOk(fs, s.slices[s.cells[o.right].values])
  {
    NodeShape(s, p);
    if o.left != null {
      NodeShape(s, p + [false]);
      NodeShape(s, p + [true]);
      if s.cells[o.left].known && s.cells[o.right].known {
        RelabelReady(fs, s, n, p, o);
      }
    }
  }

  lemma RenewedData(fs: seq<Field>, s: Store, n: Node, p: Path, c: Cell, s': Store)
    requires Mending(s) && Holds(s, n, p) && RenewOk(fs, s, p) && RenewEnds(fs, s, p) && RenewedCell(fs, s, n, c, s')
    requires s'.cells == s.cells[n := c] && forall x :: x in s.slices ==>
      x in s'.slices && s'.slices[x] == s.slices[x]
    ensures DataOf(s', n) == Update(fs, Build(Now(s), p)).d.(dirty := false)
    ensures CanRelabelAt(fs, s, p) ==> !c.lent
  {
    NodeShape(s, p);
    assert Under(p, p);
    if s.cells[n].left != null {
      NodeShape(s, p + [false]);
      NodeShape(s, p + [true]);
      if s.cells[s.cells[n].left].known && s.cells[s.cells[n].right].known && s.cells[n].known {
        RelabelData(fs, s, p);
      }
    }
  }

  lemma RenewDone(fs: seq<Field>, s: Store, n: Node, p: Path, c: Cell, s': Store)
    requires Mending(s) && Holds(s, n, p) && RenewOk(fs, s, p) && RenewEnds(fs, s, p)
    requires OneCell(s, p, c, s') && s'.nodes == s.nodes && RenewedCell(fs, s, n, c, s')
    ensures Mending(s') && Holds(s', n, p) && Confined(s, p, s') && NoneLent(s', p)
    ensures Build(Now(s'), p) == Refreshed(fs, Build(Now(s), p))
  {
    RenewedData(fs, s, n, p, c, s');
    RenewsTree(fs, s, n, p, Build(Now(s), p), c, s');
  }

  lemma MendDone(fs: seq<Field>, s: Store, n: Node, p: Path, t: Tree, s2: Store, s': Store)
    requires Mending(s) && t == Build(Now(s), p) && t.d.dirty && Confined(s, p, s2) && Confined(s2, p, s')
    requires Build(Now(s2), p) == ChildrenFixed(fs, t)
    requires Build(Now(s'), p) == Refreshed(fs, Build(Now(s2), p))
    ensures Confined(s, p, s') && Build(Now(s'), p) == Fix(fs, t)
  {
    hide Confined;
    ConfinedThen(s, p, s2, s');
  }

  lemma MendNode(s: Store, n: Node, p: Path, c: Cell)
    requires Mending(s) && Holds(s, n, p) && CellAt(s, n, c)
    ensures Build(Now(s), p).d.dirty == c.inconsistent && (Build(Now(s), p).Leaf? <==> c.left == null)
    ensures (c.left == null <==> c.right == null) && FreeAt(s, p) && c.values in s.slices && |p| <= BITS
  {
    NodeShape(s, p);
  }

  /** A walk below a node, followed by a change of the node itself. */
  lemma ConfinedThen(s: Store, p: Path, s1: Store, s2: Store)
    requires Confined(s, p, s1) && Confined(s1, p, s2)
    ensures Confined(s, p, s2)
  {
    forall r | !Under(p, r) ensures Kept(s, r, s2) {
      assert Kept(s, r, s1) && Kept(s1, r, s2);
    }
  }

  // ---- End ----

  lemma ReachQuiet(s: Store, at: map<Path, Node>)
    requires Reach(s, at, true, [], 0)
    ensures Reach(s, at, false, [], 0)
  {
    forall p, k: nat ensures ReachAt(s, at, false, [], 0, p, k) {
      assert ReachAt(s, at, true, [], 0, p, k);
    }
  }

  lemma EndStart(fs: seq<Field>, H: Hasher, scope: Scope, s: Store, s1: Store)
    requires Proper(fs, H, scope, true, s) && s1 == s.(orig := map[])
    ensures Inv(s1) && Now(s1) == Now(s) && Walkable(s1, s1.nodes, false) && Pending(s1, s1.nodes, [], s1)
    ensures LentBelow(s1, []) && Holds(s1, s1.root, [])
  {
    EndInv(s, s1);
    ReachMoved(s, s1);
    ReachQuiet(s1, s1.nodes);
    forall p | p in s1.nodes ensures VisitedLinks(s1, s1.nodes, false, p) {
      assert Linked(s1, p);
    }
    forall r, k: nat ensures LentAt(s1, true, [], 0, r, k) {
      assert LentAt(s, true, [], 0, r, k);
    }
    assert Linked(s1, []);
  }

  lemma EndRepairable(fs: seq<Field>, H: Hasher, scope: Scope, s: Store)
    requires Proper(fs, H, scope, true, s)
    ensures Repairable(fs, TreeNow(s))
  {
  }

  lemma EndInv(s: Store, s1: Store)
    requires Inv(s) && s1 == s.(orig := map[])
    ensures Inv(s1) && Now(s1) == Now(s)
  {
    forall p | p in s1.nodes ensures Linked(s1, p) {
      assert Linked(s, p);
    }
    forall x, y ensures !Clash(s1, x, y) {
      assert !Clash(s, x, y);
    }
    forall x, y ensures !BackupClash(s1, x, y) && !SavedClash(s1, x, y) {
    }
  }

  lemma ReachMoved(s: Store, s1: Store)
    requires Reach(s, s.nodes, true, [], 0) && s1 == s.(orig := map[])
    ensures Reach(s1, s1.nodes, true, [], 0)
  {
    forall p, k: nat ensures ReachAt(s1, s1.nodes, true, [], 0, p, k) {
      assert ReachAt(s, s.nodes, true, [], 0, p, k);
    }
  }

  /** All backups have been dropped. */
  lemma ConfirmDone(s: Store, s': Store)
    requires Inv(s) && s.orig == map[] && LentBelow(s, []) && Walked(s, s.nodes, [], false, s')
      && Holds(s, s.root, [])
    ensures Mending(s') && Now(s') == Now(s) && Holds(s', s'.root, []) && LentBelow(s', [])
  {
    ConfirmCells(s, s');
    ConfirmInv(s, s');
    forall r, k: nat ensures LentAt(s', true, [], 0, r, k) {
      assert Under([], r);
      assert LentAt(s, true, [], 0, r, k);
    }
  }

  lemma ConfirmCells(s: Store, s': Store)
    requires Allocated(s) && Walked(s, s.nodes, [], false, s')
    ensures forall m :: m in s.cells ==> s'.cells[m] == s.cells[m] || s'.cells[m] == s.cells[m].(backup := None)
    ensures forall p :: p in s.nodes ==> s'.cells[s.nodes[p]] == s.cells[s.nodes[p]].(backup := None)
    ensures Allocated(s')
  {
    forall p | p in s.nodes ensures s'.cells[s.nodes[p]] == s.cells[s.nodes[p]].(backup := None) {
      assert Under([], p);
    }
    forall m | m in s.cells ensures s'.cells[m] == s.cells[m] || s'.cells[m] == s.cells[m].(backup := None) {
      if m in s.nodes.Values {
        var p :| p in s.nodes && s.nodes[p] == m;
      }
    }
  }

  lemma ConfirmInv(s: Store, s': Store)
    requires Inv(s) && s.orig == map[] && Allocated(s') && s' == s.(cells := s'.cells)
      && s'.cells.Keys == s.cells.Keys
    requires forall p :: p in s.nodes ==> s'.cells[s.nodes[p]] == s.cells[s.nodes[p]].(backup := None)
    ensures Inv(s') && Now(s') == Now(s)
  {
    forall p | p in s'.nodes ensures Linked(s', p) {
      assert Linked(s, p);
    }
    forall x, y ensures !Clash(s', x, y) {
      assert !Clash(s, x, y);
    }
    forall x, y ensures !BackupClash(s', x, y) && !SavedClash(s', x, y) {
    }
  }

  /** All flagged nodes have been relabelled. */
  lemma FixDone(fs: seq<Field>, H: Hasher, scope: Scope, s: Store, s': Store)
    requires Proper(fs, H, scope, true, s) && Mending(s') && NoneLent(s', []) && TreeNow(s') == Fix(fs, TreeNow(s))
    ensures Proper(fs, H, scope, false, s') && Clean(TreeNow(s'))
  {
    forall r | r in s'.nodes ensures !s'.cells[s'.nodes[r]].lent {
      assert Under([], r);
    }
    StillMarks(s');
    FixKeeps(fs, H, TreeNow(s), []);
    FixSettles(fs, TreeNow(s));
    CleanClosed(TreeNow(s'));
  }

  // ---- Begin and Rollback ----

  ghost function PlainTable(m: Table): Table {
    map p | p in m :: m[p].(dirty := false)
  }

  /** The tree that a rollback would bring back. */
  ghost function SavedTree(s: Store): Tree {
    Build(Saved(s), [])
  }

  lemma {:induction false} BuildPlain(m: Table, p: Path)
    ensures Build(PlainTable(m), p) == Plain(Build(m, p))
    decreases BITS - |p|
  {
    if p in m && |p| < BITS {
      BuildPlain(m, p + [false]);
      BuildPlain(m, p + [true]);
    }
  }

  lemma BeginDone(fs: seq<Field>, H: Hasher, scope: Scope, s: Store, s': Store)
    requires Proper(fs, H, scope, false, s) && s' == s.(orig := s.nodes)
    ensures Proper(fs, H, scope, true, s') && TreeNow(s') == TreeNow(s) && SavedTree(s') == Plain(TreeNow(s))
  {
    ProperStill(fs, H, scope, s);
    BeginInv(s, s');
    BeginMarks(s, s');
    TableLaid(s);
    BeginFlags(s, s');
    assert Saved(s') == PlainTable(Now(s));
    BuildPlain(Now(s), []);
  }

  lemma BeginInv(s: Store, s': Store)
    requires Still(s) && s' == s.(orig := s.nodes)
    ensures Inv(s') && Now(s') == Now(s)
  {
    forall p | p in s'.nodes ensures Linked(s', p) && SavedLinked(s', p) {
      assert Linked(s, p);
    }
    forall x, y ensures !Clash(s', x, y) {
      assert !Clash(s, x, y);
    }
    forall x, y ensures !BackupClash(s', x, y) && !SavedClash(s', x, y) {
      assert !Clash(s, x, y);
    }
  }

  lemma BeginMarks(s: Store, s': Store)
    requires Still(s) && s' == s.(orig := s.nodes) && Allocated(s')
    ensures Marks(s', true, [], 0)
  {
    var n: nat := 0;
    forall p, k: nat ensures ReachAt(s', s'.nodes, true, [], n, p, k) {
    }
    forall r, k: nat ensures LentAt(s', true, [], n, r, k) {
    }
  }

  lemma RollbackStart(fs: seq<Field>, H: Hasher, scope: Scope, s: Store)
    requires Proper(fs, H, scope, true, s)
    ensures Walkable(s, s.orig, true) && Pending(s, s.orig, [], s) && [] in s.orig && s.orig[[]] == s.root
  {
    ReachQuiet(s, s.orig);
    forall p | p in s.orig ensures VisitedLinks(s, s.orig, true, p) {
      assert SavedLinked(s, p);
    }
    assert SavedLinked(s, []);
  }

  lemma RestoredCells(s: Store, s': Store)
    requires Allocated(s) && Walked(s, s.orig, [], true, s')
    ensures Allocated(s') && forall p :: p in s.orig ==> s'.cells[s.orig[p]] == Restored(s.cells[s.orig[p]])
  {
    forall p | p in s.orig ensures s'.cells[s.orig[p]] == Restored(s.cells[s.orig[p]]) {
      assert Under([], p);
    }
    forall m | m in s.cells ensures s'.cells[m] == s.cells[m] || s'.cells[m] == Restored(s.cells[m]) {
      if m in s.orig.Values {
        var p :| p in s.orig && s.orig[p] == m;
      }
    }
  }

  /** A restored node: what it holds and where it leads is what was saved. */
  lemma RestoredNode(s: Store, s': Store, p: Path)
    requires Allocated(s) && Allocated(s') && SavedAlive(s) && s'.slices == s.slices
    requires p in s.orig && s.orig[p] in s'.cells && s'.cells[s.orig[p]] == Restored(s.cells[s.orig[p]])
    requires SavedLinked(s, p)
    ensures
      var o, c := s.cells[s.orig[p]], s'.cells[s.orig[p]];
      && c.backup == None && !c.lent && c.values == SavedSlice(o)
      && LinkedIn(s.root, s.orig, p, c.parent, c.left, c.right)
    ensures DataOf(s', s.orig[p]).(dirty := false) == SavedData(s, s.orig[p])
  {
  }

  /** All nodes that a rollback brings back are restored and make up the tree. */
  ghost predicate AllRestored(s: Store, s': Store) {
    && Allocated(s) && Allocated(s') && [] in s.orig && s' == Store(s.root, s.orig, map[], s'.cells, s.slices)
    && forall p :: p in s.orig ==> s'.cells[s.orig[p]] == Restored(s.cells[s.orig[p]])
  }

  lemma RollbackLinks(s: Store, s': Store)
    requires AllRestored(s, s') && SavedAlive(s) && AllSavedLinked(s)
    ensures AllLinked(s') && AllSavedLinked(s')
  {
    hide LinkedIn, SavedLinked;
    forall p | p in s'.nodes ensures Linked(s', p) {
      assert SavedLinked(s, p);
      RestoredNode(s, s', p);
    }
  }

  lemma RollbackSlices(s: Store, s': Store)
    requires AllRestored(s, s') && SavedAlive(s) && AllSavedLinked(s) && SavedApart(s)
    ensures Unshared(s') && BackupsApart(s') && SavedApart(s') && SavedAlive(s')
  {
    hide LinkedIn, SavedLinked;
    forall x, y ensures !Clash(s', x, y) {
      if x in s.orig && y in s.orig {
        assert SavedLinked(s, x) && SavedLinked(s, y) && !SavedClash(s, x, y);
        RestoredNode(s, s', x);
        RestoredNode(s, s', y);
      }
    }
  }

  lemma RollbackTable(s: Store, s': Store)
    requires AllRestored(s, s') && SavedAlive(s) && AllSavedLinked(s)
    ensures PlainTable(TableOf(s')) == SavedTable(s)
  {
    hide LinkedIn, SavedLinked, DataOf, SavedData, Restored;
    forall p | p in s'.nodes ensures DataOf(s', s'.nodes[p]).(dirty := false) == SavedData(s, s.orig[p]) {
      assert SavedLinked(s, p);
      RestoredNode(s, s', p);
    }
  }

  lemma RollbackQuiet(s: Store, s': Store)
    requires AllRestored(s, s') && SavedAlive(s) && AllSavedLinked(s)
    ensures Quiet(s', false) && forall p :: p in s'.nodes ==> !s'.cells[s'.nodes[p]].lent
  {
    hide LinkedIn, SavedLinked;
    forall p | p in s'.nodes ensures s'.cells[s'.nodes[p]].backup == None && !s'.cells[s'.nodes[p]].lent {
      assert SavedLinked(s, p);
      RestoredNode(s, s', p);
    }
  }

  lemma RollbackInv(s: Store, s': Store)
    requires Inv(s) && AllRestored(s, s')
    ensures Still(s') && PlainTable(Now(s')) == Saved(s)
  {
    hide Linked, SavedLinked, AllLinked, AllSavedLinked, OnePath, Unshared, BackupsApart, SavedApart, SavedAlive,
      TableOf, SavedTable, PlainTable, Quiet, Restored;
    RollbackLinks(s, s');
    RollbackSlices(s, s');
    RollbackTable(s, s');
    RollbackQuiet(s, s');
    RollbackPlaces(s, s');
  }

  lemma RollbackPlaces(s: Store, s': Store)
    requires OnePlace(s) && s'.nodes == s.orig && s'.orig == map[]
    ensures OnePlace(s')
  {
  }

  lemma RollbackRestores(fs: seq<Field>, H: Hasher, scope: Scope, s: Store, s1: Store, s': Store)
    requires Proper(fs, H, scope, true, s) && Walked(s, s.orig, [], true, s1)
      && s' == s1.(nodes := s.orig, orig := map[])
    ensures Inv(s) && ScopeOk(scope) && AllRestored(s, s')
  {
    hide Restored, AllLinked, AllSavedLinked, OnePlace, Unshared, BackupsApart, SavedApart, SavedAlive, Marks, Upright;
    RestoredCells(s, s1);
  }

  lemma RollbackDone(fs: seq<Field>, H: Hasher, scope: Scope, s: Store, s1: Store, s': Store)
    requires Proper(fs, H, scope, true, s) && Walked(s, s.orig, [], true, s1)
      && s' == s1.(nodes := s.orig, orig := map[])
    ensures Still(s') && Plain(TreeNow(s')) == SavedTree(s) && Closed(TreeNow(s'))
    ensures Upright(fs, H, false, SavedTree(s)) ==> Proper(fs, H, scope, false, s')
  {
    RollbackRestores(fs, H, scope, s, s1, s');
    ProperParts(fs, H, scope, true, s);
    RollbackInv(s, s');
    RollbackFlags(s, s');
    hide AllRestored, Inv, Walked, Now, Saved, PlainTable, Build, FlagsClosed, Closed, Upright, Proper;
    BuildPlain(Now(s'), []);
    RollbackProper(fs, H, scope, s');
  }

  /** The flags that remain are closed toward the root. */
  lemma RollbackFlags(s: Store, s': Store)
    requires AllRestored(s, s') && FlagsClosed(s)
    ensures Closed(TreeNow(s'))
  {
    var m := Now(s');
    forall r | r in m && r != [] && m[r].dirty ensures Up(r) in m && m[Up(r)].dirty {
      assert FlagAt(s, r) && FlagUp(s, r);
    }
    ClosedBuild(m, []);
  }

  lemma RollbackProper(fs: seq<Field>, H: Hasher, scope: Scope, s': Store)
    requires Still(s') && ScopeOk(scope) && Closed(TreeNow(s'))
    ensures Upright(fs, H, false, Plain(TreeNow(s'))) ==> Proper(fs, H, scope, false, s')
  {
    PlainKeeps(fs, H, TreeNow(s'), []);
    StillMarks(s');
  }

  /** A root that has no backup keeps its flag. */
  lemma RollbackFlag(fs: seq<Field>, H: Hasher, scope: Scope, s: Store, s1: Store, s': Store)
    requires Proper(fs, H, scope, true, s) && Walked(s, s.orig, [], true, s1)
      && s' == s1.(nodes := s.orig, orig := map[])
    requires Still(s') && Untouched(s, [])
    ensures s'.root in s'.cells && TreeNow(s').d.dirty == TreeNow(s).d.dirty
      && s'.cells[s'.root].inconsistent == TreeNow(s).d.dirty
  {
    RestoredCells(s, s1);
    ProperRoot(fs, H, scope, true, s);
    assert SavedLinked(s, []);
    NodeShape(s', []);
  }
}
