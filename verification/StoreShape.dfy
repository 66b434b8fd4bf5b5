/** Steps that change the shape of a snapshot: a leaf gets children, a node loses them. */
module StoreShape {
  import opened Fields
  import opened Trie
  import opened Mapping
  import opened Layout
  import opened Store

  // ---- nodes and slices that nothing refers to yet ----

  ghost predicate Grows(s: Store, s': Store) {
    && Allocated(s) && Allocated(s')
    && s'.root == s.root && s'.nodes == s.nodes && s'.orig == s.orig
    && (forall n :: n in s.cells ==> n in s'.cells && s'.cells[n] == s.cells[n])
    && (forall x :: x in s.slices ==> x in s'.slices && s'.slices[x] == s.slices[x])
  }

  lemma GrowLinked(s: Store, s': Store)
    requires Grows(s, s') && AllLinked(s) && AllSavedLinked(s)
    ensures AllLinked(s') && AllSavedLinked(s')
  {
    forall q | q in s'.nodes ensures Linked(s', q) {
      assert Linked(s, q);
    }
    forall q | q in s'.orig ensures SavedLinked(s', q) {
      assert SavedLinked(s, q);
    }
  }

  lemma GrowTables(s: Store, s': Store)
    requires Grows(s, s')
    ensures TableOf(s') == TableOf(s) && SavedTable(s') == SavedTable(s)
  {
    forall q | q in s.nodes ensures DataOf(s', s.nodes[q]) == DataOf(s, s.nodes[q]) {
    }
    forall q | q in s.orig ensures SavedData(s', s.orig[q]) == SavedData(s, s.orig[q]) {
    }
  }

  lemma GrowInv(s: Store, s': Store)
    requires Inv(s) && Grows(s, s')
    ensures Inv(s') && TableOf(s') == TableOf(s) && SavedTable(s') == SavedTable(s)
  {
    GrowLinked(s, s');
    GrowTables(s, s');
    assert SavedKept(s, s');
    KeptApart(s, s');
    forall x, y ensures !Clash(s', x, y) {
      assert !Clash(s, x, y);
    }
    forall x, y ensures !BackupClash(s', x, y) {
      assert !BackupClash(s, x, y);
    }
  }

  // ---- a leaf gets two children ----

  /** A node outside the tree, about to become a child of `parent`. */
  ghost predicate NewChild(s: Store, x: Node, parent: Node) {
    && x in s.cells
    && (forall q :: q in s.nodes ==> s.nodes[q] != x) && (forall q :: q in s.orig ==> s.orig[q] != x)
    && var c := s.cells[x];
    c.parent == parent && c.left == null && c.right == null && !c.lent
  }

  /** Neither a node of the tree nor a backup holds the slice. */
  ghost predicate Unused(s: Store, x: Slice)
    requires Allocated(s)
  {
    && (forall q :: q in s.nodes ==> s.cells[s.nodes[q]].values != x)
    && (forall q :: q in s.orig && s.cells[s.orig[q]].backup.Some? ==> s.cells[s.orig[q]].backup.value.values != x)
  }

  /** Slices after branching: the node's own slice may pass to one child. */
  ghost predicate SlicesPass(s: Store, o: Cell, c: Cell, x: Slice, y: Slice)
    requires Allocated(s)
  {
    && !o.lent && x != y
    && (Unused(s, x) || (c.lent && x == o.values))
    && (Unused(s, y) || (c.lent && y == o.values))
    && (if c.lent then c.values == o.values else Unused(s, c.values) && c.values != x && c.values != y)
  }

  /** The leaf at `p` adopts the nodes `l` and `r`. */
  ghost predicate Adopts(s: Store, p: Path, c: Cell, l: Node, r: Node, s': Store) {
    && Allocated(s) && Allocated(s') && p in s.nodes && |p| < BITS && Free(s, p) && l != r
    && var n := s.nodes[p];
    && var o := s.cells[n];
    && NewChild(s, l, n) && NewChild(s, r, n)
    && o.left == null && c.left == l && c.right == r && c.parent == o.parent && c.backup == o.backup
    && SlicesPass(s, o, c, s.cells[l].values, s.cells[r].values)
    && s' == s.(nodes := s.nodes[p + [false] := l][p + [true] := r], cells := s.cells[n := c])
  }

  lemma ChildPaths(p: Path)
    ensures p + [false] != p + [true] && p + [false] != p && p + [true] != p
    ensures Up(p + [false]) == p && Up(p + [true]) == p
  {
    assert (p + [false])[|p|] != (p + [true])[|p|];
  }

  lemma LinkedGrow(root: Node, nodes: map<Path, Node>, p: Path, l: Node, r: Node, q: Path, up: Node?, x: Node?,
      y: Node?)
    requires q in nodes && LinkedIn(root, nodes, q, up, x, y) && q != p && p + [false] !in nodes
      && p + [true] !in nodes
    ensures LinkedIn(root, nodes[p + [false] := l][p + [true] := r], q, up, x, y)
  {
    ChildPaths(p);
    ChildPaths(q);
  }

  lemma LinkedTop(root: Node, nodes: map<Path, Node>, p: Path, l: Node, r: Node, up: Node?)
    requires p in nodes && LinkedIn(root, nodes, p, up, null, null) && |p| < BITS
    ensures LinkedIn(root, nodes[p + [false] := l][p + [true] := r], p, up, l, r)
  {
    ChildPaths(p);
  }

  lemma LinkedNew(root: Node, nodes: map<Path, Node>, p: Path, l: Node, r: Node, b: bool)
    requires p in nodes && |p| < BITS && p + [b] + [false] !in nodes && p + [b] + [true] !in nodes
    ensures LinkedIn(root, nodes[p + [false] := l][p + [true] := r], p + [b], nodes[p], null, null)
  {
    ChildPaths(p);
    ChildPaths(p + [b]);
    assert |p + [b] + [false]| != |p + [b]| == |p + [!b]|;
  }

  lemma NodeAbove(s: Store, r: Path)
    requires Allocated(s) && Prefixed(TableOf(s)) && r != []
    ensures r in s.nodes ==> Up(r) in s.nodes
  {
    assert r in s.nodes ==> r in TableOf(s);
  }

  lemma UpStep(p: Path, b: bool)
    ensures p + [b] != [] && Up(p + [b]) == p
  {
  }

  /** Below a leaf there is nothing. */
  lemma AdoptRoom(s: Store, p: Path)
    requires Allocated(s) && p in s.nodes && Linked(s, p) && s.cells[s.nodes[p]].left == null
    requires Prefixed(TableOf(s))
    ensures s.cells[s.nodes[p]].right == null
    ensures forall b: bool :: p + [b] !in s.nodes
    ensures forall b: bool, d: bool :: p + [b] + [d] !in s.nodes
  {
    forall b: bool ensures p + [b] !in s.nodes {
      assert p + [false] !in s.nodes && p + [true] !in s.nodes;
    }
    forall b: bool, d: bool ensures p + [b] + [d] !in s.nodes {
      UpStep(p + [b], d);
      NodeAbove(s, p + [b] + [d]);
    }
  }

  lemma AdoptLinkedAt(s: Store, p: Path, c: Cell, l: Node, r: Node, s': Store, q: Path)
    requires Adopts(s, p, c, l, r, s') && OnePath(s.nodes, s.nodes) && Prefixed(TableOf(s))
    requires Linked(s, p) && (q in s.nodes ==> Linked(s, q)) && q in s'.nodes
    ensures Linked(s', q)
  {
    AdoptRoom(s, p);
    hide SlicesPass, LinkedIn, TableOf, Prefixed, Free;
    ChildPaths(p);
    if q == p {
      LinkedTop(s.root, s.nodes, p, l, r, c.parent);
    } else if q in s.nodes {
      assert s.nodes[q] != s.nodes[p];
      var o := s.cells[s.nodes[q]];
      LinkedGrow(s.root, s.nodes, p, l, r, q, o.parent, o.left, o.right);
    } else {
      var b := q == p + [true];
      LinkedNew(s.root, s.nodes, p, l, r, b);
    }
  }

  lemma AdoptLinked(s: Store, p: Path, c: Cell, l: Node, r: Node, s': Store)
    requires Adopts(s, p, c, l, r, s') && AllLinked(s) && OnePath(s.nodes, s.nodes)
    ensures AllLinked(s')
  {
    TablePrefixed(s);
    assert Linked(s, p);
    forall q | q in s'.nodes ensures Linked(s', q) {
      assert q in s.nodes ==> Linked(s, q);
      AdoptLinkedAt(s, p, c, l, r, s', q);
    }
  }

  lemma AdoptSavedLinked(s: Store, p: Path, c: Cell, l: Node, r: Node, s': Store)
    requires Adopts(s, p, c, l, r, s') && AllSavedLinked(s) && OnePath(s.nodes, s.orig)
    ensures AllSavedLinked(s')
  {
    forall q | q in s'.orig ensures SavedLinked(s', q) {
      assert SavedLinked(s, q);
      if s.orig[q] != s.nodes[p] {
        assert s'.cells[s'.orig[q]] == s.cells[s.orig[q]];
      }
    }
  }

  lemma AdoptTableAt(s: Store, p: Path, c: Cell, l: Node, r: Node, s': Store, q: Path)
    requires Adopts(s, p, c, l, r, s') && OnePath(s.nodes, s.nodes) && q in s'.nodes
    requires p + [false] !in s.nodes && p + [true] !in s.nodes
    ensures DataOf(s', s'.nodes[q]) ==
      if q == p then DataOf(s', s.nodes[p]) else if q == p + [false] then DataOf(s, l)
      else if q == p + [true] then DataOf(s, r) else TableOf(s)[q]
  {
    ChildPaths(p);
    if q in s.nodes && q != p {
      assert s.nodes[q] != s.nodes[p];
    }
  }

  lemma BranchAt(m: Table, p: Path, d: NodeData, l: NodeData, r: NodeData, q: Path)
    requires q in Branch(m, p, d, l, r)
    ensures Branch(m, p, d, l, r)[q] ==
      if q == p then d else if q == p + [false] then l else if q == p + [true] then r else m[q]
  {
    ChildPaths(p);
  }

  lemma AdoptTable(s: Store, p: Path, c: Cell, l: Node, r: Node, s': Store)
    requires Adopts(s, p, c, l, r, s') && OnePath(s.nodes, s.nodes) && Linked(s, p)
    ensures TableOf(s') == Branch(TableOf(s), p, DataOf(s', s.nodes[p]), DataOf(s, l), DataOf(s, r))
  {
    ChildPaths(p);
    var d, dl, dr := DataOf(s', s.nodes[p]), DataOf(s, l), DataOf(s, r);
    forall q ensures q in TableOf(s') <==> q in Branch(TableOf(s), p, d, dl, dr) {
    }
    forall q | q in TableOf(s') ensures TableOf(s')[q] == Branch(TableOf(s), p, d, dl, dr)[q] {
      AdoptTableAt(s, p, c, l, r, s', q);
      BranchAt(TableOf(s), p, d, dl, dr, q);
    }
  }

  lemma AdoptSaved(s: Store, p: Path, c: Cell, l: Node, r: Node, s': Store)
    requires Adopts(s, p, c, l, r, s') && OnePath(s.nodes, s.orig)
    ensures SavedTable(s') == SavedTable(s) && SavedKept(s, s')
  {
    forall q | q in s.orig ensures SavedData(s', s.orig[q]) == SavedData(s, s.orig[q]) {
      if s.orig[q] == s.nodes[p] {
        assert p == q;
      }
    }
  }

  lemma AdoptPlaces(s: Store, p: Path, c: Cell, l: Node, r: Node, s': Store)
    requires Adopts(s, p, c, l, r, s') && OnePlace(s)
    ensures OnePlace(s')
  {
    ChildPaths(p);
  }

  /** A node that was there before still shows the slice it showed, or a new one. */
  lemma AdoptSlice(s: Store, p: Path, c: Cell, l: Node, r: Node, s': Store, x: Path)
    requires Adopts(s, p, c, l, r, s') && OnePath(s.nodes, s.nodes) && x in s'.nodes && !s'.cells[s'.nodes[x]].lent
    ensures
      var a := s'.cells[s'.nodes[x]].values;
      if x == p + [false] then s'.nodes[x] == l && a == s.cells[l].values
      else if x == p + [true] then s'.nodes[x] == r && a == s.cells[r].values
      else if x == p then a == c.values && !c.lent
      else x in s.nodes && s'.nodes[x] == s.nodes[x] && s'.cells[s.nodes[x]] == s.cells[s.nodes[x]]
  {
    ChildPaths(p);
    if x in s.nodes && x != p {
      assert s.nodes[x] != s.nodes[p];
    }
  }

  lemma AdoptUnshared(s: Store, p: Path, c: Cell, l: Node, r: Node, s': Store)
    requires Adopts(s, p, c, l, r, s') && OnePath(s.nodes, s.nodes) && Unshared(s)
    ensures Unshared(s')
  {
    forall x, y ensures !Clash(s', x, y) {
      assert !Clash(s, x, y) && !Clash(s, p, y) && !Clash(s, x, p);
      if x in s'.nodes && y in s'.nodes && !s'.cells[s'.nodes[x]].lent && !s'.cells[s'.nodes[y]].lent {
        AdoptSlice(s, p, c, l, r, s', x);
        AdoptSlice(s, p, c, l, r, s', y);
      }
    }
  }

  lemma AdoptBackups(s: Store, p: Path, c: Cell, l: Node, r: Node, s': Store)
    requires Adopts(s, p, c, l, r, s') && OnePath(s.nodes, s.orig) && BackupsApart(s) && SavedAlive(s)
    ensures BackupsApart(s') && SavedAlive(s')
  {
    forall x, y ensures !BackupClash(s', x, y) {
      assert !BackupClash(s, x, y) && !BackupClash(s, x, p);
    }
    forall x | x in s'.orig ensures s'.cells[s'.orig[x]].backup == None ==> !s'.cells[s'.orig[x]].lent {
      if s.orig[x] == s.nodes[p] {
        assert x == p;
      }
    }
  }

  lemma AdoptInv(s: Store, p: Path, c: Cell, l: Node, r: Node, s': Store)
    requires Inv(s) && Adopts(s, p, c, l, r, s')
    ensures Inv(s')
    ensures TableOf(s') == Branch(TableOf(s), p, DataOf(s', s.nodes[p]), DataOf(s, l), DataOf(s, r))
    ensures SavedTable(s') == SavedTable(s)
  {
    AdoptLinked(s, p, c, l, r, s');
    AdoptSavedLinked(s, p, c, l, r, s');
    assert Linked(s, p);
    AdoptTable(s, p, c, l, r, s');
    AdoptSaved(s, p, c, l, r, s');
    KeptApart(s, s');
    AdoptPlaces(s, p, c, l, r, s');
    AdoptUnshared(s, p, c, l, r, s');
    AdoptBackups(s, p, c, l, r, s');
  }

  // ---- a node loses everything below it ----

  ghost function CutNodes(nodes: map<Path, Node>, p: Path): map<Path, Node> {
    map r | r in nodes && (Under(p, r) ==> r == p) :: nodes[r]
  }

  ghost predicate TakesSlice(s: Store, p: Path, c: Cell, r: Path)
    requires Allocated(s)
  {
    r in s.nodes && Under(p, r) && r != p && !s.cells[s.nodes[r]].lent && c.values == s.cells[s.nodes[r]].values
  }

  /** The node's values afterwards come from a slice of its own, or from a node it loses. */
  ghost predicate Cuts(s: Store, p: Path, c: Cell, s': Store) {
    && Allocated(s) && Allocated(s') && p in s.nodes && Free(s, p)
    && var n := s.nodes[p];
    && var o := s.cells[n];
    && c.left == null && c.right == null && c.parent == o.parent && c.backup == o.backup && !c.lent
    && (c.values !in s.slices || exists r :: TakesSlice(s, p, c, r))
    && s'.root == s.root && s'.orig == s.orig
    && s'.nodes == CutNodes(s.nodes, p)
    && s'.cells == s.cells[n := c]
    && forall x :: x in s.slices ==> x in s'.slices && s'.slices[x] == s.slices[x]
  }

  lemma LinkedCut(root: Node, nodes: map<Path, Node>, p: Path, q: Path, up: Node?, x: Node?, y: Node?)
    requires q in nodes && LinkedIn(root, nodes, q, up, x, y) && !Under(p, q)
    ensures q in CutNodes(nodes, p) && LinkedIn(root, CutNodes(nodes, p), q, up, x, y)
  {
    ChildPaths(q);
    if q != [] {
      UpLast(q);
      assert Under(p, Up(q)) ==> Under(p, q);
    }
    CutSide(p, q, false);
    CutSide(p, q, true);
  }

  lemma LinkedCutTop(root: Node, nodes: map<Path, Node>, p: Path, up: Node?, x: Node?, y: Node?)
    requires p in nodes && LinkedIn(root, nodes, p, up, x, y)
    ensures p in CutNodes(nodes, p) && LinkedIn(root, CutNodes(nodes, p), p, up, null, null)
  {
    ChildPaths(p);
    assert Under(p, p + [false]) && Under(p, p + [true]);
    if p != [] {
      UpLast(p);
      assert !Under(p, Up(p));
    }
  }

  lemma CutLinked(s: Store, p: Path, c: Cell, s': Store)
    requires Cuts(s, p, c, s') && AllLinked(s) && OnePath(s.nodes, s.nodes)
    ensures AllLinked(s')
  {
    assert Under(p, p);
    assert [] in s'.nodes by {
      assert Under(p, []) ==> p == [];
    }
    forall q | q in s'.nodes ensures Linked(s', q) {
      assert Linked(s, q);
      if q == p {
        var o := s.cells[s.nodes[p]];
        LinkedCutTop(s.root, s.nodes, p, o.parent, o.left, o.right);
      } else {
        assert s.nodes[q] != s.nodes[p];
        var o := s.cells[s.nodes[q]];
        LinkedCut(s.root, s.nodes, p, q, o.parent, o.left, o.right);
      }
    }
  }

  lemma CutSide(p: Path, q: Path, b: bool)
    requires !Under(p, q)
    ensures Under(p, q + [b]) ==> q + [b] == p
  {
    assert q == (q + [b])[..|q|];
  }

  lemma CutSavedLinked(s: Store, p: Path, c: Cell, s': Store)
    requires Cuts(s, p, c, s') && AllSavedLinked(s) && OnePath(s.nodes, s.orig)
    ensures AllSavedLinked(s')
  {
    forall q | q in s'.orig ensures SavedLinked(s', q) {
      assert SavedLinked(s, q);
    }
  }

  lemma CutsTable(m: Table, m': Table, p: Path, d: NodeData)
    requires p in m && p in m' && m'[p] == d
    requires forall q {:trigger q in m'} :: q in m' <==> q in m && (Under(p, q) ==> q == p)
    requires forall q :: q in m' && q != p ==> m'[q] == m[q]
    ensures m' == Cut(m, p)[p := d]
  {
  }

  lemma CutTable(s: Store, p: Path, c: Cell, s': Store)
    requires Cuts(s, p, c, s') && OnePath(s.nodes, s.nodes)
    ensures TableOf(s') == Cut(TableOf(s), p)[p := DataOf(s', s.nodes[p])]
  {
    hide DataOf, Cut;
    assert Under(p, p);
    forall q | q in s'.nodes && q != p ensures TableOf(s')[q] == TableOf(s)[q] {
      CutData(s, p, c, s', q);
    }
    CutsTable(TableOf(s), TableOf(s'), p, DataOf(s', s.nodes[p]));
  }

  lemma CutData(s: Store, p: Path, c: Cell, s': Store, q: Path)
    requires Cuts(s, p, c, s') && OnePath(s.nodes, s.nodes) && q in s.nodes && q != p
    ensures DataOf(s', s.nodes[q]) == DataOf(s, s.nodes[q])
  {
    assert s.nodes[q] != s.nodes[p];
  }

  lemma CutSaved(s: Store, p: Path, c: Cell, s': Store)
    requires Cuts(s, p, c, s') && OnePath(s.nodes, s.orig)
    ensures SavedTable(s') == SavedTable(s) && SavedKept(s, s')
  {
    forall q | q in s.orig ensures SavedData(s', s.orig[q]) == SavedData(s, s.orig[q]) {
      if s.orig[q] == s.nodes[p] {
        assert p == q;
      }
    }
  }

  lemma CutPlaces(s: Store, p: Path, c: Cell, s': Store)
    requires Cuts(s, p, c, s') && OnePlace(s)
    ensures OnePlace(s')
  {
  }

  lemma CutUnshared(s: Store, p: Path, c: Cell, s': Store, r: Path)
    requires Cuts(s, p, c, s') && OnePath(s.nodes, s.nodes) && Unshared(s)
    requires c.values !in s.slices || TakesSlice(s, p, c, r)
    ensures Unshared(s')
  {
    assert Under(p, p);
    forall x, y ensures !Clash(s', x, y) {
      assert !Clash(s, x, y) && !Clash(s, r, y) && !Clash(s, x, r);
    }
  }

  lemma CutBackups(s: Store, p: Path, c: Cell, s': Store, r: Path)
    requires Cuts(s, p, c, s') && OnePath(s.nodes, s.orig) && BackupsApart(s) && SavedAlive(s)
    requires c.values !in s.slices || TakesSlice(s, p, c, r)
    ensures BackupsApart(s') && SavedAlive(s')
  {
    assert Under(p, p);
    forall x, y ensures !BackupClash(s', x, y) {
      assert !BackupClash(s, x, y) && !BackupClash(s, x, r);
    }
  }

  lemma CutInv(s: Store, p: Path, c: Cell, s': Store)
    requires Inv(s) && Cuts(s, p, c, s')
    ensures Inv(s')
    ensures TableOf(s') == Cut(TableOf(s), p)[p := DataOf(s', s.nodes[p])]
    ensures SavedTable(s') == SavedTable(s)
  {
    CutLinked(s, p, c, s');
    CutSavedLinked(s, p, c, s');
    CutTable(s, p, c, s');
    CutSaved(s, p, c, s');
    KeptApart(s, s');
    CutPlaces(s, p, c, s');
    var r :| c.values !in s.slices || TakesSlice(s, p, c, r);
    CutUnshared(s, p, c, s', r);
    CutBackups(s, p, c, s', r);
  }
}
