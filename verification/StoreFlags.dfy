/** The flags that a rollback leaves: those of the backups, and those that nodes without a backup
    have got since. They are closed toward the root, except at the node that a call has just
    flagged on its way back. */
module StoreFlags {
  import opened Fields
  import opened Trie
  import opened Mapping
  import opened Canonical
  import opened Lazy
  import opened Layout
  import opened Store
  import opened StoreShape
  import opened StoreMarks
  import opened StoreSteps

  /** The flag of a node after a rollback. */
  ghost function SavedFlag(c: Cell): bool {
    if c.backup.Some? then c.backup.value.inconsistent else c.inconsistent
  }

  ghost predicate FlagAt(s: Store, p: Path) {
    p in s.orig && s.orig[p] in s.cells && SavedFlag(s.cells[s.orig[p]])
  }

  ghost predicate FlagUp(s: Store, p: Path) {
    FlagAt(s, p) && p != [] ==> FlagAt(s, Up(p))
  }

  /** A node that a rollback brings back with a backup has lost its children. */
  ghost predicate OpenAbove(s: Store, p: Path) {
    InTree(s, p) && p != [] ==> Untouched(s, Up(p))
  }

  ghost predicate FlagsClosed(s: Store) {
    (forall p :: FlagUp(s, p)) && forall p :: OpenAbove(s, p)
  }

  /** The internal node at path `p` is where Begin found it, and has no backup. */
  ghost predicate StillInner(s: Store, p: Path) {
    InTree(s, p) && Untouched(s, p) && s.cells[s.orig[p]].left != null
  }

  /** The node at depth `k` on the path has just been flagged, its parent perhaps not yet. */
  ghost predicate FlagsBelow(s: Store, q: Path, k: nat) {
    && k <= |q| && (forall p :: OpenAbove(s, p))
    && forall p :: FlagUp(s, p) || (p == q[..k] && StillInner(s, p))
  }

  lemma FlagsStart(s: Store, q: Path, k: nat)
    requires FlagsClosed(s) && k <= |q|
    ensures FlagsBelow(s, q, k)
  {
  }

  lemma FlagsEnd(s: Store, q: Path)
    requires FlagsBelow(s, q, 0)
    ensures FlagsClosed(s)
  {
    forall p ensures FlagUp(s, p) {
    }
  }

  // ---- steps that leave the flags alone ----

  /** Saved flags stay, nodes only leave the tree, and only the node at `p` may get a backup. */
  ghost predicate FlagsStay(s: Store, s': Store, p: Path) {
    && s'.orig == s.orig
    && (forall q :: FlagAt(s', q) <==> FlagAt(s, q))
    && (forall q :: InTree(s', q) ==> InTree(s, q))
    && (forall q :: Untouched(s, q) && !Untouched(s', q) ==> q == p)
  }

  lemma FlagsStayTrans(a: Store, b: Store, c: Store, p: Path)
    requires FlagsStay(a, b, p) && FlagsStay(b, c, p)
    ensures FlagsStay(a, c, p)
  {
    hide FlagAt, InTree, Untouched;
  }

  lemma FlagsStaySame(s: Store, p: Path)
    ensures FlagsStay(s, s, p)
  {
  }

  /** One node of the tree changes; a new backup has its flag. */
  lemma OneFlagsStay(s: Store, p: Path, c: Cell, s': Store)
    requires OneChanges(s, p, c, s') && OnePath(s.nodes, s.orig)
    requires
      var o := s.cells[s.nodes[p]];
      c.inconsistent == o.inconsistent &&
      (c.backup == o.backup || (o.backup == None && c.backup.Some? && c.backup.value.inconsistent == o.inconsistent))
    ensures FlagsStay(s, s', p)
  {
    forall q | q in s.orig && s.orig[q] == s.nodes[p] ensures q == p {
    }
  }

  lemma CutFlagsStay(s: Store, p: Path, c: Cell, s': Store)
    requires Cuts(s, p, c, s') && OnePath(s.nodes, s.orig) && c.inconsistent == s.cells[s.nodes[p]].inconsistent
    ensures FlagsStay(s, s', p)
  {
    assert Under(p, p);
    forall q | q in s.orig && s.orig[q] == s.nodes[p] ensures q == p {
    }
  }

  // ---- what a call does to the flags ----

  /** The leaf that a call is about, and what it becomes. */
  lemma LeafFlags(s: Store, s': Store, p: Path)
    requires Inv(s) && FlagsClosed(s) && FlagsStay(s, s', p) && p in s.nodes && s.cells[s.nodes[p]].left == null
    ensures FlagsClosed(s')
  {
    forall q ensures FlagUp(s', q) {
      assert FlagUp(s, q);
    }
    forall q ensures OpenAbove(s', q) {
      assert OpenAbove(s, q);
      if InTree(s', q) && q != [] && Up(q) == p {
        assert Linked(s, q) && Linked(s, p);
        UpLast(q);
      }
    }
  }

  /** Only the flag of the node at `p` has been set. */
  ghost predicate FlagsOne(s: Store, s': Store, p: Path) {
    && p in s.nodes && s.nodes[p] in s.cells && s'.orig == s.orig && s'.nodes == s.nodes
    && s'.cells == s.cells[s.nodes[p] := s.cells[s.nodes[p]].(inconsistent := true)]
  }

  lemma MarkParts(s: Store, s': Store, p: Path)
    requires Inv(s) && FlagsOne(s, s', p)
    ensures forall x :: InTree(s', x) <==> InTree(s, x)
    ensures forall x :: Untouched(s', x) <==> Untouched(s, x)
    ensures forall x :: x != p ==> (FlagAt(s', x) <==> FlagAt(s, x))
    ensures FlagAt(s, p) ==> FlagAt(s', p)
    ensures InTree(s, p) && Untouched(s, p) ==> FlagAt(s', p)
    ensures !(InTree(s, p) && Untouched(s, p)) ==> (FlagAt(s', p) <==> FlagAt(s, p))
    ensures forall x :: StillInner(s', x) <==> StillInner(s, x)
  {
    hide AllLinked, AllSavedLinked, Unshared, BackupsApart, SavedApart, SavedAlive;
    forall x | x in s.orig && s.orig[x] == s.nodes[p] ensures x == p {
    }
  }

  /** A node that has kept its place has a parent that has. */
  lemma TreeAbove(s: Store, x: Path)
    requires Inv(s) && InTree(s, x) && x != []
    ensures InTree(s, Up(x))
  {
    assert Linked(s, x) && SavedLinked(s, x);
  }

  lemma HasChild(s: Store, q: Path, k: nat)
    requires Inv(s) && 0 < k <= |q| && q[..k] in s.nodes
    ensures Up(q[..k]) == q[..k - 1] && q[..k] != []
    ensures q[..k - 1] in s.nodes && s.cells[s.nodes[q[..k - 1]]].left != null
  {
    assert Up(q[..k]) == q[..k - 1];
    assert Linked(s, q[..k]) && Linked(s, q[..k - 1]);
    UpLast(q[..k]);
  }

  /** A node is flagged on the way back, after the one below. */
  lemma MarkFlags(s: Store, s': Store, q: Path, k: nat)
    requires Inv(s) && 0 < k && FlagsBelow(s, q, k) && FlagsOne(s, s', q[..k - 1]) && q[..k] in s.nodes
    ensures FlagsBelow(s', q, k - 1)
  {
    var p, low := q[..k - 1], q[..k];
    MarkParts(s, s', p);
    HasChild(s, q, k);
    if StillInner(s, low) {
      TreeAbove(s, low);
      assert OpenAbove(s, low) && FlagAt(s', p);
    }
    assert FlagAt(s', p) && !FlagAt(s, p) ==> StillInner(s', p);
    hide Inv, FlagsOne, InTree, Untouched, FlagAt, StillInner;
    forall x ensures OpenAbove(s', x) {
      assert OpenAbove(s, x);
    }
    forall x ensures FlagUp(s', x) || (x == p && StillInner(s', x)) {
      assert FlagUp(s, x) || (x == low && StillInner(s, x));
    }
  }

  /** A node is backed up and takes over a leaf: nothing below it is left in the tree. */
  lemma LiftFlags(s: Store, s': Store, q: Path, k: nat)
    requires Inv(s) && 0 < k <= |q| && FlagsBelow(s, q, k) && FlagsStay(s, s', q[..k - 1])
    requires q[..k] in s.nodes && s.cells[s.nodes[q[..k]]].left == null
    requires forall b: bool :: q[..k - 1] + [b] !in s'.nodes
    ensures FlagsClosed(s')
  {
    var p := q[..k - 1];
    forall x ensures FlagUp(s', x) {
      assert FlagUp(s, x) || (x == q[..k] && StillInner(s, x));
    }
    forall x ensures OpenAbove(s', x) {
      assert OpenAbove(s, x);
      if x != [] && Up(x) == p {
        UpLast(x);
        assert x == p + [LastStep(x)];
      }
    }
  }

  // ---- Begin and Rollback ----

  lemma BeginFlags(s: Store, s': Store)
    requires Inv(s) && s' == s.(orig := s.nodes) && Laid(TableOf(s)) && Closed(TreeOf(s))
    requires forall p :: p in s.nodes ==> s.cells[s.nodes[p]].backup == None
    ensures FlagsClosed(s')
  {
    forall p ensures FlagUp(s', p) {
      if FlagAt(s', p) && p != [] {
        LaidUp(TableOf(s), p);
        ClosedAt(TableOf(s), Up(p));
      }
    }
    forall p ensures OpenAbove(s', p) {
      if InTree(s', p) && p != [] {
        LaidUp(TableOf(s), p);
      }
    }
  }

  lemma {:induction false} ClosedAt(m: Table, p: Path)
    requires Laid(m) && p in m && Closed(Build(m, []))
    ensures Closed(Build(m, p))
    decreases |p|
  {
    if p != [] {
      LaidUp(m, p);
      ClosedAt(m, Up(p));
    }
  }

  lemma {:induction false} ClosedBuild(m: Table, p: Path)
    requires forall r :: r in m && r != [] && m[r].dirty ==> Up(r) in m && m[Up(r)].dirty
    ensures Closed(Build(m, p))
    decreases BITS - |p|
  {
    if Build(m, p).Inner? {
      assert Up(p + [false]) == p && Up(p + [true]) == p;
      ClosedBuild(m, p + [false]);
      ClosedBuild(m, p + [true]);
    }
  }

  // ---- as seen from the methods ----

  lemma StepFlags(s: Store, n: Node, p: Path, o: Cell, c: Cell, s': Store)
    requires Holds(s, n, p) && Holds(s', n, p) && CellAt(s, n, o) && OneCell(s, p, c, s') && s'.nodes == s.nodes
    requires c.inconsistent == o.inconsistent
    requires c.backup == o.backup
      || (o.backup == None && c.backup.Some? && c.backup.value.inconsistent == o.inconsistent)
    ensures FlagsStay(s, s', p)
  {
    OneFlagsStay(s, p, c, s');
  }

  lemma OverwriteFlags(s: Store, n: Node, p: Path, o: Cell, c: Cell, vs: seq<Bytes>, s': Store)
    requires Holds(s, n, p) && Holds(s', n, p) && CellAt(s, n, o) && o.values in s.slices && c == o.(lbl := c.lbl)
    requires s' == s.(cells := s.cells[n := c], slices := s.slices[o.values := vs])
    ensures FlagsStay(s, s', p)
  {
    OneFlagsStay(s, p, c, s');
  }

  lemma CutFlags(s: Store, n: Node, p: Path, o: Cell, c: Cell, s': Store)
    requires Holds(s, n, p) && CellAt(s, n, o) && Cuts(s, p, c, s') && c.inconsistent == o.inconsistent
    ensures FlagsStay(s, s', p)
  {
    CutFlagsStay(s, p, c, s');
  }

  lemma FlagFlags(s: Store, n: Node, p: Path, o: Cell, c: Cell, s': Store)
    requires Holds(s, n, p) && CellAt(s, n, o) && OneCell(s, p, c, s') && s'.nodes == s.nodes
    requires c == o.(inconsistent := true)
    ensures FlagsOne(s, s', p)
  {
  }

  /** A leaf makes room. */
  ghost predicate Roomed(s: Store, n: Node, p: Path, o: Cell, l: Node, cl: Cell, r: Node, cr: Cell, s': Store) {
    && CellAt(s, n, o) && o.left == null && l !in s.cells && r !in s.cells && l != r && s'.orig == s.orig
    && s'.nodes == s.nodes[p + [false] := l][p + [true] := r]
    && s'.cells == s.cells[l := cl][r := cr][n := o.(key := [], left := l, right := r, lent := true)]
  }

  lemma SplitFlagsAt(s: Store, n: Node, p: Path, o: Cell, l: Node, cl: Cell, r: Node, cr: Cell, s': Store, q: Path)
    requires Holds(s, n, p) && Roomed(s, n, p, o, l, cl, r, cr, s') && q in s.orig
    ensures s.orig[q] in s.cells && s.orig[q] in s'.cells && (InTree(s', q) ==> InTree(s, q))
    ensures Untouched(s, q) == Untouched(s', q) && FlagAt(s', q) == FlagAt(s, q)
  {
    hide OnePlace, AllLinked, AllSavedLinked, Unshared, BackupsApart, SavedApart, SavedAlive;
    assert s.orig[q] in s.cells && s.orig[q] != l && s.orig[q] != r;
    ChildPaths(p);
  }

  lemma SplitFlags(s: Store, n: Node, p: Path, o: Cell, l: Node, cl: Cell, r: Node, cr: Cell, s': Store)
    requires Holds(s, n, p) && Roomed(s, n, p, o, l, cl, r, cr, s')
    ensures FlagsStay(s, s', p)
  {
    forall q | q in s.orig
      ensures s.orig[q] in s.cells && s.orig[q] in s'.cells && (InTree(s', q) ==> InTree(s, q))
      ensures Untouched(s, q) == Untouched(s', q) && FlagAt(s', q) == FlagAt(s, q)
    {
      SplitFlagsAt(s, n, p, o, l, cl, r, cr, s', q);
    }
    RoomedOrig(s, n, p, o, l, cl, r, cr, s');
    StayFrom(s, s', p);
  }

  lemma RoomedOrig(s: Store, n: Node, p: Path, o: Cell, l: Node, cl: Cell, r: Node, cr: Cell, s': Store)
    requires Roomed(s, n, p, o, l, cl, r, cr, s')
    ensures s'.orig == s.orig
  {
  }

  lemma StayFrom(s: Store, s': Store, p: Path)
    requires s'.orig == s.orig
    requires forall q :: q in s.orig && InTree(s', q) ==> InTree(s, q)
    requires forall q :: q in s.orig ==> Untouched(s, q) == Untouched(s', q) && FlagAt(s', q) == FlagAt(s, q)
    ensures FlagsStay(s, s', p)
  {
  }

  ghost predicate LeafHeld(s: Store, p: Path) {
    Inv(s) && p in s.nodes && s.cells[s.nodes[p]].left == null
  }

  lemma LeafHolds(s: Store, n: Node, p: Path, c: Cell)
    requires Holds(s, n, p) && CellAt(s, n, c) && c.left == null
    ensures LeafHeld(s, p)
  {
  }

  /** A leaf is backed up and changed. */
  lemma LeafFlagsKept(s: Store, s1: Store, s': Store, p: Path)
    requires LeafHeld(s, p) && FlagsStay(s, s1, p) && FlagsStay(s1, s', p)
    ensures FlagsClosed(s) ==> FlagsClosed(s')
  {
    if FlagsClosed(s) {
      FlagsStayTrans(s, s1, s', p);
      LeafFlags(s, s', p);
    }
  }

  lemma FlagsFrom(s: Store, q: Path, k: nat)
    requires k <= |q|
    ensures FlagsClosed(s) ==> FlagsBelow(s, q, k)
  {
    if FlagsClosed(s) {
      FlagsStart(s, q, k);
    }
  }

  lemma FlagsOver(s: Store, q: Path)
    ensures FlagsBelow(s, q, 0) ==> FlagsClosed(s)
  {
    if FlagsBelow(s, q, 0) {
      FlagsEnd(s, q);
    }
  }
}
