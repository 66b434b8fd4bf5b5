/** Which nodes are flagged or have a backup, and which show dead values, while an operation
    makes its way along the path of a key. */
module StoreMarks {
  import opened Fields
  import opened Trie
  import opened Mapping
  import opened Layout
  import opened Store
  import opened StoreShape

  predicate Touched(c: Cell) {
    c.inconsistent || c.backup.Some?
  }

  /** One of the first `n` nodes on the path `q`. */
  ghost predicate Above(s: Store, q: Path, n: nat, x: Node) {
    exists k: nat {:trigger q[..k]} :: k < n && k <= |q| && q[..k] in s.nodes && s.nodes[q[..k]] == x
  }

  /** A node with a backup is reached from the root through touched nodes, except that in a
      transaction the first `n` nodes on the path `q` are still to be flagged. */
  ghost predicate ReachAt(s: Store, at: map<Path, Node>, lazy: bool, q: Path, n: nat, p: Path, k: nat) {
    p in at && k < |p| && at[p] in s.cells && s.cells[at[p]].backup.Some? ==>
      && p[..k] in at && at[p[..k]] in s.cells
      && (Touched(s.cells[at[p[..k]]]) || (lazy && Above(s, q, n, at[p[..k]])))
  }

  ghost predicate Reach(s: Store, at: map<Path, Node>, lazy: bool, q: Path, n: nat) {
    forall p, k: nat :: ReachAt(s, at, lazy, q, n, p, k)
  }

  /** Dead values are found only in internal nodes that are reached through flagged nodes, or
      whose way to the root is still to be flagged or relabelled. */
  ghost predicate LentAt(s: Store, lazy: bool, q: Path, n: nat, r: Path, k: nat)
    requires Allocated(s)
  {
    r in s.nodes && k <= |r| && s.cells[s.nodes[r]].lent ==>
      && s.cells[s.nodes[r]].left != null && r[..k] in s.nodes
      && ((lazy && s.cells[s.nodes[r[..k]]].inconsistent) || (k < n && r[..k] <= q))
  }

  ghost predicate LentMarks(s: Store, lazy: bool, q: Path, n: nat)
    requires Allocated(s)
  {
    forall r, k: nat :: LentAt(s, lazy, q, n, r, k)
  }

  ghost predicate Marks(s: Store, lazy: bool, q: Path, n: nat)
    requires Allocated(s)
  {
    Reach(s, s.nodes, lazy, q, n) && Reach(s, s.orig, lazy, q, n) && LentMarks(s, lazy, q, n)
  }

  lemma {:induction false} PrefixIn(s: Store, p: Path, k: nat)
    requires Allocated(s) && AllLinked(s) && p in s.nodes && k <= |p|
    ensures p[..k] in s.nodes
    decreases |p|
  {
    assert Linked(s, p);
    if k == |p| {
      assert p[..k] == p;
    } else {
      PrefixIn(s, Up(p), k);
      assert Up(p)[..k] == p[..k];
    }
  }

  /** A node that has kept its place has kept all nodes above it. */
  lemma {:induction false} SameAncestors(s: Store, p: Path, k: nat)
    requires Allocated(s) && AllLinked(s) && AllSavedLinked(s)
    requires p in s.nodes && p in s.orig && s.nodes[p] == s.orig[p] && k <= |p|
    ensures p[..k] in s.nodes && p[..k] in s.orig && s.nodes[p[..k]] == s.orig[p[..k]]
    decreases |p|
  {
    if k == |p| {
      assert p[..k] == p;
    } else {
      assert Linked(s, p) && SavedLinked(s, p);
      SameAncestors(s, Up(p), k);
      assert Up(p)[..k] == p[..k];
    }
  }

  /** The step leaves the tree's shape alone, and touches at most the nodes in `xs`. */
  ghost predicate Stirs(s: Store, s': Store, xs: set<Node>) {
    && s'.root == s.root && s'.nodes == s.nodes && s'.orig == s.orig && s'.cells.Keys == s.cells.Keys
    && forall m :: m in s.cells ==>
      && s'.cells[m].parent == s.cells[m].parent && s'.cells[m].left == s.cells[m].left
      && (s.cells[m].inconsistent ==> s'.cells[m].inconsistent)
      && (s.cells[m].backup.Some? ==> s'.cells[m].backup.Some?)
      && (m !in xs ==> s'.cells[m].inconsistent == s.cells[m].inconsistent && s'.cells[m].backup == s.cells[m].backup)
      && (s'.cells[m].lent ==> s.cells[m].lent)
  }

  /** Backups are new only at nodes on the path. */
  ghost predicate Gains(s: Store, s': Store, q: Path, n: nat) {
    forall x :: x in s.cells && x in s'.cells && s.cells[x].backup == None && s'.cells[x].backup.Some? ==>
      Above(s, q, n, x)
  }

  lemma StirReach(s: Store, s': Store, xs: set<Node>, lazy: bool, q: Path, n: nat)
    requires Inv(s) && Allocated(s') && Stirs(s, s', xs) && Gains(s, s', q, n + 1) && (s' != s && xs != {} ==> lazy)
    requires Reach(s, s.nodes, lazy, q, n)
    ensures Reach(s', s'.nodes, lazy, q, n)
  {
    forall p, k: nat ensures ReachAt(s', s'.nodes, lazy, q, n, p, k) {
      assert ReachAt(s, s.nodes, lazy, q, n, p, k);
      if p in s.nodes && k < |p| {
        var x := s.nodes[p];
        PrefixIn(s, p, k);
        if s.cells[x].backup == None && s'.cells[x].backup.Some? {
          var d: nat :| d < n + 1 && d <= |q| && q[..d] in s.nodes && s.nodes[q[..d]] == x;
          assert p == q[..d] && p[..k] == q[..k];
        }
        StirAbove(s, s', q, n, s.nodes[p[..k]]);
      }
    }
  }

  lemma StirAbove(s: Store, s': Store, q: Path, n: nat, x: Node)
    requires s'.nodes == s.nodes
    ensures Above(s', q, n, x) == Above(s, q, n, x)
  {
  }

  lemma StirReachSaved(s: Store, s': Store, xs: set<Node>, lazy: bool, q: Path, n: nat)
    requires Inv(s) && Allocated(s') && Stirs(s, s', xs) && Gains(s, s', q, n + 1) && (s' != s && xs != {} ==> lazy)
    requires Reach(s, s.orig, lazy, q, n)
    ensures Reach(s', s'.orig, lazy, q, n)
  {
    forall p, k: nat ensures ReachAt(s', s'.orig, lazy, q, n, p, k) {
      assert ReachAt(s, s.orig, lazy, q, n, p, k);
      if p in s.orig && k < |p| {
        var x := s.orig[p];
        if s.cells[x].backup == None && s'.cells[x].backup.Some? {
          var d: nat :| d < n + 1 && d <= |q| && q[..d] in s.nodes && s.nodes[q[..d]] == x;
          assert p == q[..d] && p[..k] == q[..k];
          SameAncestors(s, p, k);
        }
        if p[..k] in s.orig {
          StirAbove(s, s', q, n, s.orig[p[..k]]);
        }
      }
    }
  }

  lemma StirMarks(s: Store, s': Store, xs: set<Node>, lazy: bool, q: Path, n: nat)
    requires Inv(s) && Allocated(s') && Stirs(s, s', xs) && Gains(s, s', q, n + 1) && (s' != s && xs != {} ==> lazy)
    requires Marks(s, lazy, q, n)
    ensures Marks(s', lazy, q, n)
  {
    StirReach(s, s', xs, lazy, q, n);
    StirReachSaved(s, s', xs, lazy, q, n);
    forall r, k: nat ensures LentAt(s', lazy, q, n, r, k) {
      assert LentAt(s, lazy, q, n, r, k);
    }
  }

  /** More nodes still to be flagged. */
  lemma MoreMarks(s: Store, lazy: bool, q: Path, n: nat, n': nat)
    requires Allocated(s) && Marks(s, lazy, q, n) && n <= n'
    ensures Marks(s, lazy, q, n')
  {
    forall p, k: nat ensures ReachAt(s, s.nodes, lazy, q, n', p, k) {
      assert ReachAt(s, s.nodes, lazy, q, n, p, k);
    }
    forall p, k: nat ensures ReachAt(s, s.orig, lazy, q, n', p, k) {
      assert ReachAt(s, s.orig, lazy, q, n, p, k);
    }
    forall r, k: nat ensures LentAt(s, lazy, q, n', r, k) {
      assert LentAt(s, lazy, q, n, r, k);
    }
  }

  lemma FewerReach(s: Store, at: map<Path, Node>, lazy: bool, q: Path, n: nat)
    requires Allocated(s) && n < |q| && q[..n] in s.nodes && Reach(s, at, lazy, q, n + 1)
    requires lazy ==> Touched(s.cells[s.nodes[q[..n]]])
    ensures Reach(s, at, lazy, q, n)
  {
    forall p, k: nat ensures ReachAt(s, at, lazy, q, n, p, k) {
      assert ReachAt(s, at, lazy, q, n + 1, p, k);
    }
  }

  lemma FewerLent(s: Store, lazy: bool, q: Path, n: nat)
    requires Allocated(s) && AllLinked(s) && n < |q| && q[..n] in s.nodes && LentMarks(s, lazy, q, n + 1)
    requires
      var c := s.cells[s.nodes[q[..n]]];
      if lazy then c.inconsistent || c.left == null else !c.lent
    ensures LentMarks(s, lazy, q, n)
  {
    forall r, k: nat ensures LentAt(s, lazy, q, n, r, k) {
      assert LentAt(s, lazy, q, n + 1, r, k) && LentAt(s, lazy, q, n + 1, r, |r|);
      if r in s.nodes && k == n && k <= |r| && r[..k] <= q {
        assert r[..k] == q[..n];
        assert |r| == n ==> r == q[..n];
        if n < |r| {
          PrefixIn(s, r, n + 1);
          assert r[..n + 1] == q[..n] + [r[n]];
          assert Linked(s, q[..n]);
          if r[n] {
            assert q[..n] + [true] in s.nodes;
          } else {
            assert q[..n] + [false] in s.nodes;
          }
        }
      }
    }
  }

  /** The last node still to be marked has been. */
  lemma FewerMarks(s: Store, lazy: bool, q: Path, n: nat)
    requires Allocated(s) && AllLinked(s) && n < |q| && q[..n] in s.nodes && Marks(s, lazy, q, n + 1)
    requires
      var c := s.cells[s.nodes[q[..n]]];
      if lazy then Touched(c) && (c.inconsistent || c.left == null) else !c.lent
    ensures Marks(s, lazy, q, n)
  {
    FewerReach(s, s.nodes, lazy, q, n);
    FewerReach(s, s.orig, lazy, q, n);
    FewerLent(s, lazy, q, n);
  }

  /** Cells besides that of `n` stay as they were, and new ones are untouched. */
  ghost predicate ForkCells(cells: map<Node, Cell>, n: Node, cells': map<Node, Cell>)
    requires n in cells
  {
    && (forall m :: m in cells ==>
          && m in cells' && cells'[m].parent == cells[m].parent
          && cells'[m].inconsistent == cells[m].inconsistent && cells'[m].backup == cells[m].backup
          && (m != n ==> cells'[m].lent == cells[m].lent && cells'[m].left == cells[m].left))
    && cells'[n].left != null
    && (forall m :: m in cells' && m !in cells ==> !Touched(cells'[m]) && !cells'[m].lent)
  }

  ghost predicate ForkNodes(nodes: map<Path, Node>, cells: map<Node, Cell>, nodes': map<Path, Node>) {
    && (forall x :: x in nodes ==> x in nodes' && nodes'[x] == nodes[x])
    && (forall x :: x in nodes' && x !in nodes ==> nodes'[x] !in cells)
  }

  /** The leaf at path `p` gets new, untouched children; its own values may go dead. */
  ghost predicate Forks(s: Store, p: Path, s': Store)
    requires p in s.nodes && s.nodes[p] in s.cells
  {
    ForkNodes(s.nodes, s.cells, s'.nodes) && ForkCells(s.cells, s.nodes[p], s'.cells)
  }

  lemma PutForksCells(cells: map<Node, Cell>, n: Node, c: Cell, l: Node, cl: Cell, r: Node, cr: Cell)
    requires n in cells && l !in cells && r !in cells && l != r
    requires c.parent == cells[n].parent && c.inconsistent == cells[n].inconsistent && c.backup == cells[n].backup
      && c.left != null
    requires !Touched(cl) && !Touched(cr) && !cl.lent && !cr.lent
    ensures ForkCells(cells, n, cells[l := cl][r := cr][n := c])
  {
  }

  lemma PutForksNodes(nodes: map<Path, Node>, cells: map<Node, Cell>, p: Path, l: Node, r: Node)
    requires p + [false] !in nodes && p + [true] !in nodes && l !in cells && r !in cells
    ensures ForkNodes(nodes, cells, nodes[p + [false] := l][p + [true] := r])
  {
    ChildPaths(p);
  }

  lemma ForkReach(s: Store, p: Path, s': Store, at: map<Path, Node>, at': map<Path, Node>, lazy: bool, q: Path,
      n: nat, n': nat)
    requires Allocated(s) && Allocated(s') && p in s.nodes && Forks(s, p, s') && n <= n'
    requires Reach(s, at, lazy, q, n) && ForkNodes(at, s.cells, at') && (forall x :: x in at ==> at[x] in s.cells)
    ensures Reach(s', at', lazy, q, n')
  {
    forall x, k: nat ensures ReachAt(s', at', lazy, q, n', x, k) {
      assert ReachAt(s, at, lazy, q, n, x, k);
    }
  }

  lemma ForkMarks(s: Store, p: Path, s': Store, lazy: bool, q: Path, n: nat)
    requires Allocated(s) && Allocated(s') && p in s.nodes && Forks(s, p, s') && s'.orig == s.orig && AllLinked(s)
    requires Marks(s, lazy, q, n) && OnePath(s.nodes, s.nodes) && n == |p| && p <= q
    ensures Marks(s', lazy, q, n + 1)
  {
    var n' := n + 1;
    ForkReach(s, p, s', s.nodes, s'.nodes, lazy, q, n, n');
    ForkReach(s, p, s', s.orig, s'.orig, lazy, q, n, n');
    forall x, k: nat ensures LentAt(s', lazy, q, n', x, k) {
      assert LentAt(s, lazy, q, n, x, k);
      if x == p && k <= |p| {
        PrefixIn(s, p, k);
      }
    }
  }

  /** A node loses everything below it. */
  lemma CutAbove(s: Store, p: Path, c: Cell, s': Store, q: Path, n: nat, x: Node)
    requires Cuts(s, p, c, s') && p <= q && n == |p| + 1 && Above(s, q, n, x)
    ensures Above(s', q, n, x)
  {
    var k: nat :| k < n && k <= |q| && q[..k] in s.nodes && s.nodes[q[..k]] == x;
    assert Under(p, q[..k]) ==> q[..k] == p;
    assert q[..k] in s'.nodes && s'.nodes[q[..k]] == s.nodes[q[..k]];
  }

  lemma CutReach(s: Store, p: Path, c: Cell, s': Store, lazy: bool, q: Path, n: nat)
    requires Cuts(s, p, c, s') && Reach(s, s.nodes, lazy, q, n)
    requires p <= q && n == |p| + 1 && c.inconsistent == s.cells[s.nodes[p]].inconsistent
    ensures Reach(s', s'.nodes, lazy, q, n)
  {
    forall x, k: nat ensures ReachAt(s', s'.nodes, lazy, q, n, x, k) {
      assert ReachAt(s, s.nodes, lazy, q, n, x, k);
      if x in s'.nodes && k < |x| && x[..k] in s.nodes {
        CutPrefix(p, x, k);
        if Above(s, q, n, s.nodes[x[..k]]) {
          CutAbove(s, p, c, s', q, n, s.nodes[x[..k]]);
        }
      }
    }
  }

  lemma CutPrefix(p: Path, x: Path, k: nat)
    requires Under(p, x) ==> x == p
    requires k <= |x|
    ensures Under(p, x[..k]) ==> x[..k] == p
    ensures k < |x| && Under(p, x[..k]) ==> false
  {
    if Under(p, x[..k]) {
      assert p <= x[..k] <= x;
      assert x == p;
    }
  }

  lemma CutReachSaved(s: Store, p: Path, c: Cell, s': Store, lazy: bool, q: Path, n: nat)
    requires Cuts(s, p, c, s') && Reach(s, s.orig, lazy, q, n)
    requires p <= q && n == |p| + 1 && c.inconsistent == s.cells[s.nodes[p]].inconsistent
    ensures Reach(s', s'.orig, lazy, q, n)
  {
    forall x, k: nat ensures ReachAt(s', s'.orig, lazy, q, n, x, k) {
      assert ReachAt(s, s.orig, lazy, q, n, x, k);
      if x in s.orig && k < |x| && x[..k] in s.orig {
        if Above(s, q, n, s.orig[x[..k]]) {
          CutAbove(s, p, c, s', q, n, s.orig[x[..k]]);
        }
      }
    }
  }

  lemma CutLent(s: Store, p: Path, c: Cell, s': Store, lazy: bool, q: Path, n: nat)
    requires Cuts(s, p, c, s') && LentMarks(s, lazy, q, n) && OnePath(s.nodes, s.nodes)
    ensures LentMarks(s', lazy, q, n)
  {
    forall x, k: nat ensures LentAt(s', lazy, q, n, x, k) {
      assert LentAt(s, lazy, q, n, x, k);
      if x in s'.nodes && x != p && k <= |x| {
        CutPrefix(p, x, k);
        assert s.nodes[x] != s.nodes[p];
        if x[..k] in s.nodes {
          assert s.nodes[x[..k]] != s.nodes[p] || x[..k] == p;
        }
      }
    }
  }

  lemma CutMarks(s: Store, p: Path, c: Cell, s': Store, lazy: bool, q: Path, n: nat)
    requires Cuts(s, p, c, s') && Marks(s, lazy, q, n) && OnePath(s.nodes, s.nodes)
    requires p <= q && n == |p| + 1 && c.inconsistent == s.cells[s.nodes[p]].inconsistent
    ensures Marks(s', lazy, q, n)
  {
    CutReach(s, p, c, s', lazy, q, n);
    CutReachSaved(s, p, c, s', lazy, q, n);
    CutLent(s, p, c, s', lazy, q, n);
  }
}
