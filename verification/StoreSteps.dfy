/** The steps from which the operations on a collection are made, as relations between the
    snapshots before and after: what each keeps, and what it does to the tree. */
module StoreSteps {
  import opened Fields
  import opened Trie
  import opened Mapping
  import opened Canonical
  import opened Layout
  import opened Store
  import opened StoreShape
  import opened StoreMarks

  /** The cell of the node at path `p` is replaced; slices are only added. */
  ghost predicate OneCell(s: Store, p: Path, c: Cell, s': Store) {
    && p in s.nodes
    && s'.root == s.root && s'.orig == s.orig && s'.cells == s.cells[s.nodes[p] := c]
    && c.values in s'.slices
    && (forall a :: a in s.slices ==> a in s'.slices && s'.slices[a] == s.slices[a])
  }

  lemma OneCellAllocated(s: Store, p: Path, c: Cell, s': Store)
    requires Allocated(s) && OneCell(s, p, c, s') && (forall q :: q in s'.nodes ==>
      q in s.nodes && s'.nodes[q] == s.nodes[q])
    requires c.backup.Some? ==> c.backup.value.values in s'.slices
    ensures Allocated(s')
  {
  }

  // ---- where the slices of the leaves come from ----

  /** The leaf at `p` has key `k` and shows slice `x`. */
  ghost predicate Shows(s: Store, p: Path, k: Bytes, x: Slice) {
    && p in s.nodes && s.nodes[p] in s.cells
    && var c := s.cells[s.nodes[p]];
    c.left == null && !c.lent && k != [] && c.key == k && c.values == x && x in s.slices
  }

  /** A rollback would bring node `q` back as it is, for it has no backup. */
  ghost predicate Untouched(s: Store, q: Path) {
    q in s.orig && s.orig[q] in s.cells && s.cells[s.orig[q]].backup == None
  }

  ghost predicate InTree(s: Store, q: Path) {
    q in s.orig && q in s.nodes && s.nodes[q] == s.orig[q]
  }

  ghost predicate SameContent(c: Cell, c': Cell) {
    && c'.known == c.known && c'.lbl == c.lbl && c'.key == c.key && c'.values == c.values && c'.lent == c.lent
    && c'.left == c.left && c'.right == c.right
  }

  /** The nodes that a rollback would bring back as they are: they have not changed, those out of
      the tree stay out of it, and only nodes on the path `h` have got a backup, but not the root. */
  ghost predicate Undisturbed(s: Store, s': Store, h: Path) {
    && s'.orig == s.orig
    && (forall q :: Untouched(s, q) && !InTree(s, q) ==> Untouched(s', q) && !InTree(s', q))
    && (forall q :: Untouched(s', q) ==> Untouched(s, q) && SameContent(s.cells[s.orig[q]], s'.cells[s.orig[q]]))
    && (forall q :: Untouched(s, q) && !Untouched(s', q) ==> q <= h && q != [])
  }

  /** Slices stay with their keys: only the leaf of `key` may show a new one. */
  ghost predicate HandsOn(s: Store, s': Store, key: Bytes) {
    && (forall x :: x in s.slices ==> x in s'.slices)
    && (forall p, k, x :: x in s'.slices && Shows(s', p, k, x) ==>
       (x !in s.slices && k == key) || exists r :: Shows(s, r, k, x))
  }

  ghost predicate Lineage(s: Store, s': Store, h: Path, key: Bytes) {
    Undisturbed(s, s', h) && HandsOn(s, s', key)
  }

  lemma LineageSame(s: Store, h: Path, key: Bytes)
    ensures Lineage(s, s, h, key)
  {
  }

  lemma LineageTrans(a: Store, b: Store, c: Store, h: Path, key: Bytes)
    requires Lineage(a, b, h, key) && Lineage(b, c, h, key)
    ensures Lineage(a, c, h, key)
  {
    UndisturbedTrans(a, b, c, h);
    hide Shows, Undisturbed;
    forall p, k, x | x in c.slices && Shows(c, p, k, x)
      ensures (x !in a.slices && k == key) || exists r :: Shows(a, r, k, x) {
      assert x in a.slices ==> x in b.slices;
      if r :| Shows(b, r, k, x) {
        ShownSlice(b, r, k, x);
        assert x in b.slices && Shows(b, r, k, x);
      }
    }
  }

  lemma ShownSlice(s: Store, p: Path, k: Bytes, x: Slice)
    requires Shows(s, p, k, x)
    ensures x in s.slices && k != []
  {
  }

  lemma UndisturbedTrans(a: Store, b: Store, c: Store, h: Path)
    requires Undisturbed(a, b, h) && Undisturbed(b, c, h)
    ensures Undisturbed(a, c, h)
  {
    hide InTree;
  }

  lemma LineageWiden(s: Store, s': Store, p: Path, k0: Bytes, h: Path, key: Bytes)
    requires Lineage(s, s', p, k0) && p <= h && (k0 == [] || k0 == key)
    ensures Lineage(s, s', h, key)
  {
    forall q, k, x | x in s'.slices && Shows(s', q, k, x)
      ensures (x !in s.slices && k == key) || exists r :: Shows(s, r, k, x) {
      assert k != [];
    }
  }

  /** A step at depth `d` on the path of a key, after others. */
  lemma LineageStep(a: Store, b: Store, c: Store, h: Digest, d: nat, k0: Bytes, key: Bytes)
    requires d <= BITS && Lineage(a, b, h, key) && Lineage(b, c, h[..d], k0) && (k0 == [] || k0 == key)
    ensures Lineage(a, c, h, key)
  {
    hide Lineage;
    LineageWiden(b, c, h[..d], k0, h, key);
    LineageTrans(a, b, c, h, key);
  }

  /** Node `q` would be brought back as it is, with slice `x`. */
  ghost predicate Lends(s: Store, q: Path, x: Slice) {
    Untouched(s, q) && s.cells[s.orig[q]].values == x
  }

  /** No node of the tree that has no backup holds the slice. */
  ghost predicate Owned(s: Store, x: Slice) {
    forall q :: Lends(s, q, x) ==> !InTree(s, q)
  }

  /** A leaf that may be written has its slice to itself, as far as the tree goes. */
  lemma FreeOwns(s: Store, n: Node, p: Path, c: Cell)
    requires Holds(s, n, p) && FreeAt(s, p) && CellAt(s, n, c) && !c.lent
    ensures Owned(s, c.values)
  {
    forall q | Lends(s, q, c.values) ensures !InTree(s, q) {
      assert !Clash(s, p, q);
    }
  }

  lemma OwnedStays(s: Store, s': Store, h: Path, key: Bytes, x: Slice)
    requires Owned(s, x) && Lineage(s, s', h, key)
    ensures Owned(s', x)
  {
    forall q | Lends(s', q, x) ensures !InTree(s', q) {
      assert Lends(s, q, x);
    }
  }

  /** The nodes of one map are also in the other, at the same places. */
  ghost predicate Extends(a: map<Path, Node>, b: map<Path, Node>) {
    forall q :: q in a ==> q in b && b[q] == a[q]
  }

  lemma ExtendsSame(a: map<Path, Node>)
    ensures Extends(a, a)
  {
  }

  lemma ExtendsTrans(a: map<Path, Node>, b: map<Path, Node>, c: map<Path, Node>)
    requires Extends(a, b) && Extends(b, c)
    ensures Extends(a, c)
  {
  }

  lemma CutExtends(nodes: map<Path, Node>, p: Path)
    ensures Extends(CutNodes(nodes, p), nodes)
  {
  }

  lemma ForksExtend(s: Store, p: Path, s': Store)
    requires ForksAt(s, p, s')
    ensures Extends(s.nodes, s'.nodes)
  {
  }

  /** One node of the tree changes. */
  ghost predicate OneChanges(s: Store, p: Path, c: Cell, s': Store) {
    && Allocated(s) && Allocated(s') && p in s.nodes && s'.nodes == s.nodes && s'.orig == s.orig
    && s'.cells == s.cells[s.nodes[p] := c] && forall x :: x in s.slices ==> x in s'.slices
  }

  /** If the node changes it may be written; it gets a new slice, or keeps its key with its slice. */
  ghost predicate Respects(s: Store, p: Path, o: Cell, c: Cell, key: Bytes)
    requires Allocated(s) && p in s.nodes
  {
    && c.left == o.left && (Free(s, p) || SameContent(o, c) ) && (o.backup.Some? ==> c.backup.Some?)
    && (o.backup == None && c.backup.Some? ==> p != [])
    && (if c.values == o.values then c.key == o.key && c.lent == o.lent
       else c.values !in s.slices && (c.key == [] || c.key == key || c.left != null))
  }

  lemma OneUndisturbed(s: Store, p: Path, c: Cell, s': Store, key: Bytes)
    requires OneChanges(s, p, c, s') && OnePath(s.nodes, s.orig) && Respects(s, p, s.cells[s.nodes[p]], c, key)
    ensures Undisturbed(s, s', p)
  {
    forall q | q in s.orig && s.orig[q] == s.nodes[p] ensures q == p {
    }
  }

  lemma OneHandsOn(s: Store, p: Path, c: Cell, s': Store, key: Bytes)
    requires OneChanges(s, p, c, s') && OnePath(s.nodes, s.nodes) && Respects(s, p, s.cells[s.nodes[p]], c, key)
    ensures HandsOn(s, s', key)
  {
    forall q, k, x | x in s'.slices && Shows(s', q, k, x)
      ensures (x !in s.slices && k == key) || exists r :: Shows(s, r, k, x) {
      if q != p || c.values == s.cells[s.nodes[p]].values {
        assert q != p ==> s.nodes[q] != s.nodes[p];
        assert Shows(s, q, k, x);
      }
    }
  }

  lemma OneLineage(s: Store, p: Path, c: Cell, s': Store, key: Bytes)
    requires OneChanges(s, p, c, s') && OnePlace(s) && Respects(s, p, s.cells[s.nodes[p]], c, key)
    ensures Lineage(s, s', p, key)
  {
    OneUndisturbed(s, p, c, s', key);
    OneHandsOn(s, p, c, s', key);
  }

  /** What a node's new children and its own change leave alone. */
  lemma ForkCellAt(s: Store, p: Path, c: Cell, l: Node, cl: Cell, r: Node, cr: Cell, s': Store, q: Path)
    requires Branches(s, p, c, l, cl, r, cr, s') && OnePath(s.nodes, s.orig) && q in s.orig
    requires p + [false] !in s.nodes && p + [true] !in s.nodes
    ensures s.orig[q] in s.cells && s.orig[q] in s'.cells
    ensures if s.orig[q] == s.nodes[p] then q == p && s'.cells[s.orig[q]] == c
      else s'.cells[s.orig[q]] == s.cells[s.orig[q]]
    ensures InTree(s', q) == InTree(s, q) && c.backup == s.cells[s.nodes[p]].backup
    ensures Untouched(s, p) ==> !InTree(s, p)
  {
    hide NewCell;
    ChildPaths(p);
    assert s.orig[q] in s.cells && s.orig[q] != l && s.orig[q] != r;
  }

  lemma ForkUndisturbed(s: Store, p: Path, c: Cell, l: Node, cl: Cell, r: Node, cr: Cell, s': Store)
    requires Branches(s, p, c, l, cl, r, cr, s') && OnePath(s.nodes, s.orig)
    requires p + [false] !in s.nodes && p + [true] !in s.nodes
    ensures Undisturbed(s, s', p)
  {
    forall q | q in s.orig
      ensures s.orig[q] in s.cells && s.orig[q] in s'.cells && InTree(s', q) == InTree(s, q)
      ensures Untouched(s, q) == Untouched(s', q) && (Untouched(s, q) ==>
        SameContent(s.cells[s.orig[q]], s'.cells[s.orig[q]]))
    {
      ForkCellAt(s, p, c, l, cl, r, cr, s', q);
    }
    assert s'.orig == s.orig;
    hide Branches, InTree, SameContent;
  }

  lemma ForkShows(s: Store, p: Path, c: Cell, l: Node, cl: Cell, r: Node, cr: Cell, s': Store, z: Path, k: Bytes,
      x: Slice) returns (y: Path)
    requires Branches(s, p, c, l, cl, r, cr, s') && OnePath(s.nodes, s.nodes)
    requires p + [false] !in s.nodes && p + [true] !in s.nodes && Shows(s', z, k, x)
    requires
      var o := s.cells[s.nodes[p]];
      && (if cl.values == o.values then cl.key == o.key else cl.key == [])
      && (if cr.values == o.values then cr.key == o.key else cr.key == [])
    ensures Shows(s, y, k, x)
  {
    ChildPaths(p);
    y := if z in s.nodes then z else p;
    if z in s.nodes {
      assert z != p;
      assert s.nodes[z] != s.nodes[p];
    }
  }

  /** A leaf passes its key and its slice on to a new child. */
  lemma ForkLineage(s: Store, p: Path, c: Cell, l: Node, cl: Cell, r: Node, cr: Cell, s': Store)
    requires Branches(s, p, c, l, cl, r, cr, s') && OnePlace(s) && p + [false] !in s.nodes && p + [true] !in s.nodes
    requires
      var o := s.cells[s.nodes[p]];
      && (if cl.values == o.values then cl.key == o.key else cl.key == [])
      && (if cr.values == o.values then cr.key == o.key else cr.key == [])
    ensures Lineage(s, s', p, [])
  {
    ForkUndisturbed(s, p, c, l, cl, r, cr, s');
    hide Shows;
    forall z, k, x | x in s'.slices && Shows(s', z, k, x) ensures exists y :: Shows(s, y, k, x) {
      var y := ForkShows(s, p, c, l, cl, r, cr, s', z, k, x);
    }
  }

  lemma CutUndisturbed(s: Store, p: Path, c: Cell, s': Store)
    requires Cuts(s, p, c, s') && OnePath(s.nodes, s.orig)
    ensures Undisturbed(s, s', p)
  {
    assert Under(p, p);
    forall q | q in s.orig && s.orig[q] == s.nodes[p] ensures q == p {
    }
  }

  /** A node takes key and slice from the leaf at `r` below it. */
  lemma CutLineage(s: Store, p: Path, c: Cell, s': Store, r: Path)
    requires Cuts(s, p, c, s') && OnePlace(s) && (c.key != [] ==> Shows(s, r, c.key, c.values))
    ensures Lineage(s, s', p, [])
  {
    CutUndisturbed(s, p, c, s');
    assert Under(p, p);
    forall z, k, x | x in s'.slices && Shows(s', z, k, x) ensures exists y :: Shows(s, y, k, x) {
      if z != p {
        assert s.nodes[z] != s.nodes[p];
        assert Shows(s, z, k, x);
      }
    }
  }

  // ---- a backup is made ----

  ghost predicate BackupStep(s: Store, p: Path, c: Cell, s': Store)
    requires Allocated(s)
  {
    && OneCell(s, p, c, s') && s'.nodes == s.nodes
    && var o := s.cells[s.nodes[p]];
    && o.backup == None && c.backup.Some? && c == o.(backup := c.backup)
    && var b := c.backup.value;
    && b.known == o.known && b.lbl == o.lbl && b.key == o.key
    && b.left == o.left && b.right == o.right && b.parent == o.parent
    && b.values !in s.slices && b.values in s'.slices && s'.slices[b.values] == s.slices[o.values]
  }

  lemma BackupDone(s: Store, n: Node, p: Path, o: Cell, c: Cell, s': Store)
    requires Holds(s, n, p) && CellAt(s, n, o) && OneCell(s, p, c, s') && s'.nodes == s.nodes
    requires o.backup == None && c == o.(backup := c.backup) && c.backup.Some? && p != []
    requires
      var b := c.backup.value;
      && b == Backup(o.known, o.lbl, o.key, b.values, o.inconsistent, o.parent, o.left, o.right)
      && b.values !in s.slices && b.values in s'.slices && o.values in s.slices
         && s'.slices[b.values] == s.slices[o.values]
    ensures Holds(s', n, p) && Now(s') == Now(s) && Saved(s') == Saved(s) && Stirs(s, s', {n}) && FreeAt(s', p)
    ensures Lineage(s, s', p, [])
  {
    BackupStepDone(s, p, c, s');
    OneLineage(s, p, c, s', []);
  }

  lemma BackupStepDone(s: Store, p: Path, c: Cell, s': Store)
    requires Inv(s) && BackupStep(s, p, c, s')
    ensures Inv(s') && TableOf(s') == TableOf(s) && SavedTable(s') == SavedTable(s)
    ensures Stirs(s, s', {s.nodes[p]})
  {
    OneCellAllocated(s, p, c, s');
    assert BacksUp(s, p, c, s');
    BackupInv(s, p, c, s');
    OneCellStirs(s, p, c, s', {s.nodes[p]});
  }

  /** Nothing has happened, or the node has got a backup. */
  ghost predicate AtMostBackup(s: Store, n: Node, p: Path, c: Cell, s': Store) {
    s' == s || (OneCell(s, p, c, s') && s'.nodes == s.nodes && p in s.nodes && s.nodes[p] == n && n in s.cells
      && s.cells[n].values == c.values)
  }

  lemma BackupOverwrite(s: Store, n: Node, p: Path, c: Cell, s': Store, change: seq<Option<Bytes>>)
    requires Holds(s, n, p) && Holds(s', n, p) && AtMostBackup(s, n, p, c, s') && Saved(s') == Saved(s)
    ensures SavedWith(s', c.values, change) == SavedWith(s, c.values, change)
  {
    if s' != s {
      HoldsCell(s, n, p);
      BackupSavedWith(s, n, p, s', c.values, change);
    }
  }

  // ---- a node is written ----

  ghost predicate WriteStep(s: Store, p: Path, c: Cell, s': Store)
    requires Allocated(s)
  {
    && OneCell(s, p, c, s') && s'.nodes == s.nodes
    && var o := s.cells[s.nodes[p]];
    && SameLinks(o, c) && c.backup == o.backup && (o.inconsistent ==> c.inconsistent)
    && (Free(s, p) || (c.known == o.known && c.lbl == o.lbl && c.key == o.key && c.values == o.values
       && c.lent == o.lent))
    && (if c.values == o.values then c.lent == o.lent && c.key == o.key && c.known == o.known
       else c.values !in s.slices && !c.lent)
  }

  lemma WriteStepWrites(s: Store, p: Path, c: Cell, s': Store)
    requires Allocated(s) && WriteStep(s, p, c, s') && Allocated(s')
    ensures Writes(s, p, c, s')
  {
  }

  lemma OneCellStirs(s: Store, p: Path, c: Cell, s': Store, xs: set<Node>)
    requires Allocated(s) && OneCell(s, p, c, s') && s'.nodes == s.nodes
    requires
      var o := s.cells[s.nodes[p]];
      && c.parent == o.parent && c.left == o.left && (o.inconsistent ==> c.inconsistent)
         && (o.backup.Some? ==> c.backup.Some?)
      && (c.lent ==> o.lent)
      && (s.nodes[p] !in xs ==> c.inconsistent == o.inconsistent && c.backup == o.backup)
    ensures Stirs(s, s', xs)
  {
    assert s'.cells.Keys == s.cells.Keys;
  }

  lemma WriteDone(s: Store, p: Path, c: Cell, s': Store, xs: set<Node>, key: Bytes)
    requires Inv(s) && WriteStep(s, p, c, s')
    requires c.values != s.cells[s.nodes[p]].values && c.left == null ==> c.key == [] || c.key == key
    requires c.inconsistent == s.cells[s.nodes[p]].inconsistent || s.nodes[p] in xs
    ensures Inv(s') && SavedTable(s') == SavedTable(s) && Stirs(s, s', xs) && Lineage(s, s', p, key)
    ensures TableOf(s') == TableOf(s)[p := DataOf(s', s.nodes[p])]
  {
    hide AllLinked, AllSavedLinked, Unshared, BackupsApart, SavedApart, SavedAlive, Lineage, Stirs;
    OneCellAllocated(s, p, c, s');
    WriteStepWrites(s, p, c, s');
    WriteInv(s, p, c, s');
    OneCellStirs(s, p, c, s', xs);
    OneLineage(s, p, c, s', key);
  }

  /** Add on a placeholder: the node becomes the leaf of the key. */
  lemma FillDone(fs: seq<Field>, s: Store, n: Node, p: Path, o: Cell, c: Cell, s': Store, key: Bytes, raw: seq<Bytes>)
    requires Holds(s, n, p) && FreeAt(s, p) && CellAt(s, n, o) && OneCell(s, p, c, s') && s'.nodes == s.nodes
    requires c == o.(key := key, values := c.values, lent := false, lbl := LeafLabel(key, raw))
    requires c.values !in s.slices && c.values in s'.slices && s'.slices[c.values] == raw
    ensures Holds(s', n, p) && Saved(s') == Saved(s) && Lineage(s, s', p, key) && Stirs(s, s', {})
    ensures Now(s') == Wrote(fs, Add(key, raw), Now(s), p)
  {
    hide Lineage, Stirs, AllLinked, AllSavedLinked, OnePlace, Unshared, BackupsApart, SavedApart, SavedAlive;
    WriteDone(s, p, c, s', {}, key);
  }

  /** setPlaceholder on a leaf */
  lemma ClearDone(fs: seq<Field>, s: Store, n: Node, p: Path, o: Cell, c: Cell, s': Store, key: Bytes)
    requires Holds(s, n, p) && FreeAt(s, p) && CellAt(s, n, o) && OneCell(s, p, c, s') && s'.nodes == s.nodes
    requires c == o.(known := true, key := [], values := c.values, lent := false,
      lbl := LeafLabel([], Placeholders(fs)))
    requires c.values !in s.slices && c.values in s'.slices && s'.slices[c.values] == Placeholders(fs)
    ensures Holds(s', n, p) && Saved(s') == Saved(s) && Lineage(s, s', p, []) && Stirs(s, s', {})
    ensures Now(s') == Wrote(fs, Remove(key), Now(s), p)
  {
    hide Lineage, Stirs, AllLinked, AllSavedLinked, OnePlace, Unshared, BackupsApart, SavedApart, SavedAlive;
    WriteDone(s, p, c, s', {}, []);
  }

  lemma FlagDone(s: Store, n: Node, p: Path, o: Cell, c: Cell, s': Store)
    requires Holds(s, n, p) && CellAt(s, n, o) && OneCell(s, p, c, s') && s'.nodes == s.nodes
    requires c == o.(inconsistent := true)
    ensures Holds(s', n, p) && Saved(s') == Saved(s) && Lineage(s, s', p, []) && Stirs(s, s', {n})
    ensures Now(s') == Flagged(Now(s), p)
  {
    hide Lineage, Stirs, AllLinked, AllSavedLinked, OnePlace, Unshared, BackupsApart, SavedApart, SavedAlive;
    WriteDone(s, p, c, s', {s.nodes[p]}, []);
  }

  // ---- a node is relabelled from its children ----

  /** The node is internal, its children are known and show well-formed values. */
  ghost predicate CanRelabel(fs: seq<Field>, s: Store, p: Path)
    requires Allocated(s)
  {
    && p in s.nodes && Build(TableOf(s), p).Inner? && CanUpdate(fs, Build(TableOf(s), p))
    && p + [false] in s.nodes && p + [true] in s.nodes
    && !s.cells[s.nodes[p + [false]]].lent && !s.cells[s.nodes[p + [true]]].lent
  }

  lemma RelabelData(fs: seq<Field>, s: Store, p: Path)
    requires Allocated(s) && AllLinked(s) && CanRelabel(fs, s, p)
    ensures
      var c := s.cells[s.nodes[p]];
      && c.left != null && c.right != null && c.left in s.cells && c.right in s.cells && c.known
      && s.cells[c.left].known && s.cells[c.right].known
      && ValuesOk(fs, s.slices[s.cells[c.left].values]) && ValuesOk(fs, s.slices[s.cells[c.right].values])
      && Update(fs, Build(TableOf(s), p)).d ==
          var vs := ParentValues(fs, s.slices[s.cells[c.left].values], s.slices[s.cells[c.right].values]);
          DataOf(s, s.nodes[p]).(values := vs, lbl := InnerLabel(vs, s.cells[c.left].lbl, s.cells[c.right].lbl))
  {
    NodeShape(s, p);
    NodeShape(s, p + [false]);
    NodeShape(s, p + [true]);
  }

  ghost predicate CanRelabelAt(fs: seq<Field>, s: Store, p: Path) {
    Allocated(s) && CanRelabel(fs, s, p)
  }

  lemma RelabelReady(fs: seq<Field>, s: Store, n: Node, p: Path, o: Cell)
    requires Holds(s, n, p) && CanRelabelAt(fs, s, p) && CellAt(s, n, o)
    ensures o.left != null && o.right != null && o.left in s.cells && o.right in s.cells && o.known
    ensures s.cells[o.left].known && s.cells[o.right].known
    ensures s.cells[o.left].values in s.slices && s.cells[o.right].values in s.slices
    ensures ValuesOk(fs, s.slices[s.cells[o.left].values]) && ValuesOk(fs, s.slices[s.cells[o.right].values])
  {
    RelabelData(fs, s, p);
  }

  lemma RelabelDone(fs: seq<Field>, s: Store, n: Node, p: Path, o: Cell, l: Cell, r: Cell, c: Cell, s': Store)
    requires Holds(s, n, p) && FreeAt(s, p) && CellAt(s, n, o) && OneCell(s, p, c, s') && s'.nodes == s.nodes
    requires CanRelabelAt(fs, s, p) && o.left != null && o.right != null && CellAt(s, o.left, l)
      && CellAt(s, o.right, r)
    requires l.values in s.slices && r.values in s.slices && ValuesOk(fs, s.slices[l.values])
      && ValuesOk(fs, s.slices[r.values])
    requires
      var vs := ParentValues(fs, s.slices[l.values], s.slices[r.values]);
      && c == o.(values := c.values, lent := false, lbl := InnerLabel(vs, l.lbl, r.lbl))
      && c.values !in s.slices && c.values in s'.slices && s'.slices[c.values] == vs
    ensures Holds(s', n, p) && Saved(s') == Saved(s) && Lineage(s, s', p, []) && Stirs(s, s', {})
    ensures Now(s') == Relabelled(fs, Now(s), p)
  {
    RelabelData(fs, s, p);
    hide Lineage, Stirs, AllLinked, AllSavedLinked, OnePlace, Unshared, BackupsApart, SavedApart, SavedAlive;
    WriteDone(s, p, c, s', {}, []);
  }

  // ---- the values of a leaf are overwritten in place ----

  lemma OverwriteDone(fs: seq<Field>, s: Store, n: Node, p: Path, o: Cell, c: Cell, change: seq<Option<Bytes>>,
      s': Store)
    requires Holds(s, n, p) && FreeAt(s, p) && CellAt(s, n, o) && !o.lent && o.values in s.slices
    requires
      var vs := Overwrite(s.slices[o.values], change);
      && c == o.(lbl := LeafLabel(o.key, vs))
      && s' == s.(cells := s.cells[n := c], slices := s.slices[o.values := vs])
    ensures Holds(s', n, p) && Stirs(s, s', {}) && Lineage(s, s', p, [])
    ensures Now(s') == Wrote(fs, Set(o.key, change), Now(s), p)
    ensures Saved(s') == SavedWith(s, o.values, change) && FreeAt(s', p)
  {
    hide Lineage, OnePlace, AllLinked, AllSavedLinked, Unshared, BackupsApart, SavedApart, SavedAlive, Stirs;
    var vs := Overwrite(s.slices[o.values], change);
    OverwriteLineage(s, p, c, vs, s');
    OverwriteInv(s, p, c, vs, s');
  }

  lemma OverwriteLineage(s: Store, p: Path, c: Cell, vs: seq<Bytes>, s': Store)
    requires Inv(s) && Overwrites(s, p, c, vs, s')
    ensures Stirs(s, s', {}) && Lineage(s, s', p, [])
  {
    OneLineage(s, p, c, s', []);
  }

  // ---- a node loses everything below it ----

  ghost predicate CanLift(s: Store, p: Path)
    requires Allocated(s)
  {
    && p in s.nodes && p + [false] in s.nodes && p + [true] in s.nodes
    && var t := Build(TableOf(s), p);
    && t.Inner? && Collapsible(t.left, t.right)
    && !s.cells[s.nodes[p + [false]]].lent && !s.cells[s.nodes[p + [true]]].lent
  }

  lemma LiftData(s: Store, p: Path)
    requires Allocated(s) && AllLinked(s) && CanLift(s, p)
    ensures
      var c := s.cells[s.nodes[p]];
      && c.left != null && c.right != null && c.left in s.cells && c.right in s.cells
      && c.left == s.nodes[p + [false]] && c.right == s.nodes[p + [true]]
      && var t := Build(TableOf(s), p);
      var cl, cr := s.cells[c.left], s.cells[c.right];
      && (IsPlaceholder(t.left) <==> cl.left == null && cl.key == [])
      && var x := if IsPlaceholder(t.left) then cr else cl;
      Lift(t.d, t.left, t.right).d == DataOf(s, s.nodes[p]).(lbl := x.lbl, key := x.key, values := s.slices[x.values])
  {
    NodeShape(s, p);
    NodeShape(s, p + [false]);
    NodeShape(s, p + [true]);
  }

  /** The node's values are from a new slice, or from that of its child at path `r`. */
  ghost predicate CutStep(s: Store, p: Path, c: Cell, s': Store, r: Path)
    requires Allocated(s)
  {
    && OneCell(s, p, c, s') && Free(s, p) && s'.nodes == CutNodes(s.nodes, p)
    && var o := s.cells[s.nodes[p]];
    && c.left == null && c.right == null && c.parent == o.parent && c.backup == o.backup && !c.lent
    && (c.values !in s.slices ||
         ((r == p + [false] || r == p + [true]) && r in s.nodes
           && !s.cells[s.nodes[r]].lent && c.values == s.cells[s.nodes[r]].values))
  }

  lemma CutAllocated(s: Store, p: Path, c: Cell, s': Store, r: Path)
    requires Allocated(s) && CutStep(s, p, c, s', r)
    ensures Allocated(s')
  {
    OneCellAllocated(s, p, c, s');
  }

  lemma CutStepCuts(s: Store, p: Path, c: Cell, s': Store, r: Path)
    requires Allocated(s) && Allocated(s') && CutStep(s, p, c, s', r)
    ensures Cuts(s, p, c, s')
  {
    assert Under(p, p);
    if c.values in s.slices {
      assert TakesSlice(s, p, c, r);
    }
  }

  ghost predicate CanLiftAt(s: Store, p: Path) {
    Allocated(s) && CanLift(s, p)
  }

  lemma LiftReady(s: Store, n: Node, p: Path, o: Cell)
    requires Holds(s, n, p) && CanLiftAt(s, p) && CellAt(s, n, o)
    ensures o.left != null && o.right != null && o.left in s.cells && o.right in s.cells
    ensures s.cells[o.left].values in s.slices && s.cells[o.right].values in s.slices
  {
    LiftData(s, p);
  }

  lemma LiftDone(s: Store, n: Node, p: Path, o: Cell, l: Cell, r: Cell, c: Cell, s': Store)
    requires Holds(s, n, p) && FreeAt(s, p) && CellAt(s, n, o) && OneCell(s, p, c, s')
      && s'.nodes == CutNodes(s.nodes, p)
    requires CanLiftAt(s, p) && o.left != null && o.right != null && CellAt(s, o.left, l) && CellAt(s, o.right, r)
    requires
      var x := if l.left == null && l.key == [] then r else l;
      c == o.(lbl := x.lbl, key := x.key, values := x.values, left := null, right := null, lent := false)
    ensures Holds(s', n, p) && Cuts(s, p, c, s') && Saved(s') == Saved(s) && Lineage(s, s', p, [])
    ensures Now(s') == Lifted(Now(s), p)
  {
    hide CanLiftAt, FreeAt, CellAt, Inv, Lineage, Cuts, CutStep, Shows, OnePlace, Build, Lift, OneCell;
    var from := p + [l.left == null && l.key == []];
    LiftFrom(s, n, p, o, l, r, c, s');
    CutDone(s, p, c, s', from);
    InvPlace(s);
    CutLineage(s, p, c, s', from);
    LiftTable(s, n, p, c, s');
    assert Under(p, p);
  }

  lemma LiftTable(s: Store, n: Node, p: Path, c: Cell, s': Store)
    requires Inv(s) && Inv(s') && p in s.nodes && n == s.nodes[p] && OneCell(s, p, c, s') && c.values in s.slices
      && !c.lent
    requires TableOf(s') == Cut(TableOf(s), p)[p := DataOf(s', n)] && SavedTable(s') == SavedTable(s)
    requires
      var t := Build(TableOf(s), p);
      t.Inner? && Lift(t.d, t.left, t.right).d ==
        NodeData(c.known, c.lbl, c.key, s.slices[c.values], c.inconsistent)
    ensures Now(s') == Lifted(Now(s), p) && Saved(s') == Saved(s)
  {
  }

  lemma InvPlace(s: Store)
    requires Inv(s)
    ensures OnePlace(s)
  {
  }

  lemma LiftFrom(s: Store, n: Node, p: Path, o: Cell, l: Cell, r: Cell, c: Cell, s': Store)
    requires Holds(s, n, p) && FreeAt(s, p) && CellAt(s, n, o) && OneCell(s, p, c, s')
      && s'.nodes == CutNodes(s.nodes, p)
    requires CanLiftAt(s, p) && o.left != null && o.right != null && CellAt(s, o.left, l) && CellAt(s, o.right, r)
    requires
      var x := if l.left == null && l.key == [] then r else l;
      c == o.(lbl := x.lbl, key := x.key, values := x.values, left := null, right := null, lent := false)
    ensures CutStep(s, p, c, s', p + [l.left == null && l.key == []])
    ensures c.key != [] ==> Shows(s, p + [l.left == null && l.key == []], c.key, c.values)
    ensures c.values in s.slices && !c.lent
    ensures
      var t := Build(TableOf(s), p);
      t.Inner? && Lift(t.d, t.left, t.right).d ==
        NodeData(c.known, c.lbl, c.key, s.slices[c.values], c.inconsistent)
  {
    LiftData(s, p);
    NodeShape(s, p + [false]);
    NodeShape(s, p + [true]);
  }

  lemma CutDone(s: Store, p: Path, c: Cell, s': Store, r: Path)
    requires Inv(s) && CutStep(s, p, c, s', r)
    ensures Inv(s') && Cuts(s, p, c, s') && SavedTable(s') == SavedTable(s)
    ensures TableOf(s') == Cut(TableOf(s), p)[p := DataOf(s', s.nodes[p])]
  {
    CutAllocated(s, p, c, s', r);
    CutStepCuts(s, p, c, s', r);
    CutInv(s, p, c, s');
  }

  // ---- a leaf gets two children ----

  ghost predicate NewCell(s: Store, parent: Node, c: Cell, s': Store) {
    c.parent == parent && c.left == null && c.right == null && !c.lent && !c.inconsistent && c.backup == None
      && c.values in s'.slices
  }

  /** The leaf at `p` has got the new nodes `l` and `r` for children. */
  ghost predicate Branches(s: Store, p: Path, c: Cell, l: Node, cl: Cell, r: Node, cr: Cell, s': Store) {
    && Allocated(s) && p in s.nodes && |p| < BITS && Free(s, p)
    && l !in s.cells && r !in s.cells && l != r
    && s'.root == s.root && s'.orig == s.orig
    && s'.nodes == s.nodes[p + [false] := l][p + [true] := r]
    && s'.cells == s.cells[l := cl][r := cr][s.nodes[p] := c]
    && (forall a :: a in s.slices ==> a in s'.slices && s'.slices[a] == s.slices[a])
    && NewCell(s, s.nodes[p], cl, s') && NewCell(s, s.nodes[p], cr, s')
    && var o := s.cells[s.nodes[p]];
    && o.left == null && !o.lent && c.left == l && c.right == r && c.parent == o.parent && c.backup == o.backup
    && c.inconsistent == o.inconsistent && c.values in s'.slices
    && cl.values != cr.values
    && (cl.values !in s.slices || (c.lent && cl.values == o.values))
    && (cr.values !in s.slices || (c.lent && cr.values == o.values))
    && (if c.lent then c.values == o.values
       else c.values !in s.slices && c.values != cl.values && c.values != cr.values)
  }

  /** The snapshot in between: the new nodes exist, but are not part of the tree. */
  ghost function Detached(s: Store, l: Node, cl: Cell, r: Node, cr: Cell, s': Store): Store {
    s'.(nodes := s.nodes, cells := s.cells[l := cl][r := cr])
  }

  lemma BranchAllocated(s: Store, p: Path, c: Cell, l: Node, cl: Cell, r: Node, cr: Cell, s': Store)
    requires Branches(s, p, c, l, cl, r, cr, s')
    ensures Allocated(s')
  {
  }

  lemma DetachedAllocated(s: Store, p: Path, c: Cell, l: Node, cl: Cell, r: Node, cr: Cell, s': Store)
    requires Branches(s, p, c, l, cl, r, cr, s')
    ensures Allocated(Detached(s, l, cl, r, cr, s'))
  {
    hide Free;
  }

  lemma BranchGrows(s: Store, p: Path, c: Cell, l: Node, cl: Cell, r: Node, cr: Cell, s': Store)
    requires Branches(s, p, c, l, cl, r, cr, s')
    ensures Grows(s, Detached(s, l, cl, r, cr, s')) && Allocated(s')
  {
    hide Allocated, Free, NewCell;
    BranchAllocated(s, p, c, l, cl, r, cr, s');
    DetachedAllocated(s, p, c, l, cl, r, cr, s');
  }

  lemma NewUnused(s: Store, g: Store, x: Slice)
    requires Grows(s, g) && x !in s.slices
    ensures Allocated(g) && Unused(g, x)
  {
  }

  lemma NewChildren(s: Store, p: Path, c: Cell, l: Node, cl: Cell, r: Node, cr: Cell, s': Store)
    requires Branches(s, p, c, l, cl, r, cr, s') && Grows(s, Detached(s, l, cl, r, cr, s'))
    ensures NewChild(Detached(s, l, cl, r, cr, s'), l, s.nodes[p])
    ensures NewChild(Detached(s, l, cl, r, cr, s'), r, s.nodes[p])
  {
    hide Free;
  }

  lemma NewSlices(s: Store, p: Path, c: Cell, l: Node, cl: Cell, r: Node, cr: Cell, s': Store)
    requires Branches(s, p, c, l, cl, r, cr, s') && Grows(s, Detached(s, l, cl, r, cr, s'))
    ensures SlicesPass(Detached(s, l, cl, r, cr, s'), s.cells[s.nodes[p]], c, cl.values, cr.values)
  {
    hide Unused, Allocated, Grows, Free, NewCell;
    var g := Detached(s, l, cl, r, cr, s');
    if cl.values !in s.slices {
      NewUnused(s, g, cl.values);
    }
    if cr.values !in s.slices {
      NewUnused(s, g, cr.values);
    }
    if c.values !in s.slices {
      NewUnused(s, g, c.values);
    }
    GrownAllocated(s, g);
  }

  lemma GrownAllocated(s: Store, g: Store)
    requires Grows(s, g)
    ensures Allocated(g)
  {
  }

  lemma BranchAdopts(s: Store, p: Path, c: Cell, l: Node, cl: Cell, r: Node, cr: Cell, s': Store)
    requires Branches(s, p, c, l, cl, r, cr, s')
    requires Grows(s, Detached(s, l, cl, r, cr, s')) && Allocated(s')
    ensures Adopts(Detached(s, l, cl, r, cr, s'), p, c, l, r, s')
  {
    hide NewChild, SlicesPass, NewCell, Grows;
    var g := Detached(s, l, cl, r, cr, s');
    GrownAllocated(s, g);
    assert s.nodes[p] in s.cells && g.cells[s.nodes[p]] == s.cells[s.nodes[p]];
    assert g.cells[l] == cl && g.cells[r] == cr;
    hide Allocated;
    NewChildren(s, p, c, l, cl, r, cr, s');
    NewSlices(s, p, c, l, cl, r, cr, s');
    assert s'.cells == g.cells[s.nodes[p] := c];
  }

  lemma BranchForks(s: Store, p: Path, c: Cell, l: Node, cl: Cell, r: Node, cr: Cell, s': Store)
    requires Branches(s, p, c, l, cl, r, cr, s') && Allocated(s') && Linked(s, p)
    ensures Forks(s, p, s')
  {
    PutForksCells(s.cells, s.nodes[p], c, l, cl, r, cr);
    PutForksNodes(s.nodes, s.cells, p, l, r);
  }

  lemma BranchDone(s: Store, p: Path, c: Cell, l: Node, cl: Cell, r: Node, cr: Cell, s': Store)
    requires Inv(s) && Branches(s, p, c, l, cl, r, cr, s')
    ensures Inv(s') && SavedTable(s') == SavedTable(s) && Forks(s, p, s')
    ensures TableOf(s') == Branch(TableOf(s), p, DataOf(s', s.nodes[p]), DataOf(s', l), DataOf(s', r))
  {
    var g := Detached(s, l, cl, r, cr, s');
    BranchGrows(s, p, c, l, cl, r, cr, s');
    GrowInv(s, g);
    BranchAdopts(s, p, c, l, cl, r, cr, s');
    AdoptInv(g, p, c, l, r, s');
    assert Linked(s, p);
    BranchForks(s, p, c, l, cl, r, cr, s');
  }

  ghost predicate ForksAt(s: Store, p: Path, s': Store) {
    p in s.nodes && s.nodes[p] in s.cells && Forks(s, p, s')
  }

  /** Add on a leaf with another key */
  lemma SplitDone(fs: seq<Field>, s: Store, n: Node, p: Path, step: bool, o: Cell, l: Node, cl: Cell, r: Node,
      cr: Cell, s': Store)
    requires Holds(s, n, p) && FreeAt(s, p) && |p| < BITS && CellAt(s, n, o)
    requires o.known && o.left == null && o.right == null && !o.lent
    requires l !in s.cells && r !in s.cells && l != r && s'.root == s.root && s'.orig == s.orig
    requires s'.nodes == s.nodes[p + [false] := l][p + [true] := r]
    requires s'.cells == s.cells[l := cl][r := cr][n := o.(key := [], left := l, right := r, lent := true)]
    requires forall a :: a in s.slices ==> a in s'.slices && s'.slices[a] == s.slices[a]
    requires
      var kept, other := if step then cr else cl, if step then cl else cr;
      && kept == Cell(true, o.lbl, o.key, o.values, false, false, None, n, null, null)
      && other == Cell(true, LeafLabel([], Placeholders(fs)), [], other.values, false, false, None, n, null, null)
      && other.values in s'.slices && other.values !in s.slices && s'.slices[other.values] == Placeholders(fs)
    ensures Holds(s', n, p) && Saved(s') == Saved(s) && ForksAt(s, p, s') && Lineage(s, s', p, [])
    ensures Now(s') == Parted(fs, Now(s), p, step)
  {
    var c := o.(key := [], left := l, right := r, lent := true);
    SplitBranches(s, p, o, c, l, cl, r, cr, s');
    BranchDone(s, p, c, l, cl, r, cr, s');
    assert Linked(s, p);
    ForkLineage(s, p, c, l, cl, r, cr, s');
  }

  lemma SplitBranches(s: Store, p: Path, o: Cell, c: Cell, l: Node, cl: Cell, r: Node, cr: Cell, s': Store)
    requires Allocated(s) && p in s.nodes && |p| < BITS && Free(s, p) && s.cells[s.nodes[p]] == o
    requires l !in s.cells && r !in s.cells && l != r && s'.root == s.root && s'.orig == s.orig
    requires s'.nodes == s.nodes[p + [false] := l][p + [true] := r]
    requires s'.cells == s.cells[l := cl][r := cr][s.nodes[p] := c]
    requires forall a :: a in s.slices ==> a in s'.slices && s'.slices[a] == s.slices[a]
    requires NewCell(s, s.nodes[p], cl, s') && NewCell(s, s.nodes[p], cr, s')
    requires o.left == null && !o.lent && c == o.(key := c.key, left := l, right := r, lent := true)
    requires (cl.values == o.values && cr.values !in s.slices) || (cr.values == o.values && cl.values !in s.slices)
    ensures Branches(s, p, c, l, cl, r, cr, s')
  {
  }
}
