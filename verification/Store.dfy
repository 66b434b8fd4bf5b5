/** The linked nodes of a collection, and a snapshot of all of them as one value: which node
    sits at the end of which path, what every node holds, and what every slice of values holds. */
module Store {
  import opened Fields
  import opened Trie
  import opened Mapping
  import opened Layout

  type Slice = array<Bytes>

  /** The copy of a node that is made before a transaction first changes it. */
  datatype Backup = Backup(known: bool, lbl: Label, key: Bytes, values: Slice, inconsistent: bool,
                           parent: Node?, left: Node?, right: Node?)

  datatype Cell = Cell(known: bool, lbl: Label, key: Bytes, values: Slice, inconsistent: bool, lent: bool,
                       backup: Option<Backup>, parent: Node?, left: Node?, right: Node?)

  /** One element of the tree. While `lent` holds, the slice of values has gone to a child
      and what this node shows there is dead. */
  class Node {
    var known: bool
    var lbl: Label
    var key: Bytes
    var values: Slice
    var inconsistent: bool
    ghost var lent: bool
    var backup: Option<Backup>
    var parent: Node?
    var left: Node?
    var right: Node?

    constructor ()
      ensures fresh(values) && values[..] == []
      ensures Snapshot() == Cell(false, Zero, [], values, false, false, None, null, null, null)
    {
      known, lbl, key, inconsistent, lent := false, Zero, [], false, false;
      values := new Bytes[0];
      backup, parent, left, right := None, null, null, null;
    }

    ghost function Snapshot(): Cell
      reads this
    {
      Cell(known, lbl, key, values, inconsistent, lent, backup, parent, left, right)
    }

    /** backup: a copy of the node with a copy of its slice; a backup that is there is kept. */
    method BackUp()
      modifies this`backup
      ensures old(backup) != None ==> backup == old(backup)
      ensures old(backup) == None ==>
        && backup.Some? && fresh(backup.value.values) && backup.value.values[..] == values[..]
        && backup.value == Backup(known, lbl, key, backup.value.values, inconsistent, parent, left, right)
    {
      if backup != None {
        return;
      }
      var copy := new Bytes[values.Length](i requires 0 <= i < values.Length reads this, values => values[i]);
      assert copy[..] == values[..];
      backup := Some(Backup(known, lbl, key, copy, inconsistent, parent, left, right));
    }

    /** A node out of scope is forgotten: only its label and its links upward stay. */
    method Forget()
      modifies this`known, this`key, this`values, this`left, this`right, this`lent
      ensures fresh(values) && values[..] == []
      ensures Snapshot() == old(Snapshot()).(known := false, key := [], values := values, left := null,
        right := null, lent := false)
    {
      known := false;
      key := [];
      values := new Bytes[0];
      left := null;
      right := null;
      lent := false;
    }

    /** The node takes new contents, and keeps its flag and its links. */
    method Become(known: bool, lbl: Label, key: Bytes, vs: seq<Bytes>)
      modifies this`known, this`lbl, this`key, this`values, this`lent
      ensures fresh(values) && values[..] == vs
      ensures Snapshot() == old(Snapshot()).(known := known, lbl := lbl, key := key, values := values, lent := false)
    {
      this.lbl := lbl;
      this.known := known;
      this.key := key;
      values := new Bytes[|vs|](i requires 0 <= i < |vs| => vs[i]);
      assert values[..] == vs;
      lent := false;
    }

    /** The node takes new contents and gets two children that are not known, save for their labels. */
    method Open(known: bool, lbl: Label, key: Bytes, vs: seq<Bytes>, ll: Label, rl: Label)
      modifies this`known, this`lbl, this`key, this`values, this`lent, this`left, this`right
      ensures fresh(values) && values[..] == vs && left != null && right != null && left != right && fresh(left)
        && fresh(right)
      ensures fresh(left.values) && fresh(right.values) && left.values[..] == right.values[..] == []
      ensures values != left.values && values != right.values && left.values != right.values
      ensures Snapshot() == old(Snapshot()).(known := known, lbl := lbl, key := key, values := values, lent := false,
        left := left, right := right)
      ensures left.Snapshot() == Cell(false, ll, [], left.values, false, false, None, this, null, null)
      ensures right.Snapshot() == Cell(false, rl, [], right.values, false, false, None, this, null, null)
    {
      Become(known, lbl, key, vs);
      Branch();
      left.lbl := ll;
      right.lbl := rl;
    }

    /** restore */
    method Restore()
      modifies this
      ensures old(backup) == None ==> Snapshot() == old(Snapshot())
      ensures old(backup).Some? ==>
        var b := old(backup.value);
        Snapshot() == Cell(b.known, b.lbl, b.key, b.values, b.inconsistent, false, None, b.parent, b.left, b.right)
    {
      if backup.Some? {
        var copy := backup.value;
        known, lbl, key, values, inconsistent := copy.known, copy.lbl, copy.key, copy.values, copy.inconsistent;
        parent, left, right := copy.parent, copy.left, copy.right;
        lent := false;
        backup := None;
      }
    }

    predicate IsLeaf()
      reads this
    {
      left == null
    }

    predicate IsPlaceholderNode()
      reads this
    {
      IsLeaf() && |key| == 0
    }

    /** branch: two new children. */
    method Branch()
      modifies this`left, this`right
      ensures left != null && right != null && left != right && fresh(left) && fresh(right)
      ensures fresh(left.values) && fresh(right.values) && left.values != right.values
      ensures left.values[..] == right.values[..] == []
      ensures left.Snapshot() == Cell(false, Zero, [], left.values, false, false, None, this, null, null)
      ensures right.Snapshot() == Cell(false, Zero, [], right.values, false, false, None, this, null, null)
    {
      left := new Node();
      right := new Node();
      left.parent := this;
      right.parent := this;
    }

    /** setPlaceholder */
    method SetPlaceholder(fs: seq<Field>)
      modifies this`known, this`key, this`values, this`left, this`right, this`lbl, this`lent
      ensures fresh(values) && values[..] == Placeholders(fs)
      ensures Snapshot() == old(Snapshot()).(known := true, key := [], values := values, lent := false,
        left := null, right := null, lbl := LeafLabel([], Placeholders(fs)))
    {
      known := true;
      key := [];
      values := new Bytes[|fs|](i requires 0 <= i < |fs| => Placeholder(fs[i]));
      assert values[..] == Placeholders(fs);
      left := null;
      right := null;
      lent := false;
      lbl := LeafLabel(key, values[..]);
    }

    /** A leaf that has to make room for another key: it gets two children, of which one takes
        over its key and its slice of values and the other is a placeholder. */
    method Split(fs: seq<Field>, step: bool) returns (ghost other: Node)
      modifies this`key, this`left, this`right, this`lent
      ensures left != null && right != null && left != right && fresh(left) && fresh(right)
      ensures other == if step then left else right
      ensures fresh(other.values) && other.values[..] == Placeholders(fs)
      ensures Snapshot() == old(Snapshot()).(key := [], left := left, right := right, lent := true)
      ensures (if step then right
        else left).Snapshot() == Cell(true, lbl, old(key), values, false, false, None, this, null, null)
      ensures other.Snapshot() == Cell(true, LeafLabel([], Placeholders(fs)), [], other.values, false, false, None,
        this, null, null)
    {
      var collision := key;
      key := [];
      Branch();
      var validNode, placeholder := left, right;
      if step {
        validNode, placeholder := right, left;
      }
      validNode.known := true;
      validNode.lbl := lbl;
      validNode.key := collision;
      validNode.values := values;
      lent := true;
      placeholder.SetPlaceholder(fs);
      other := placeholder;
    }

    /** update: recompute the values of an internal node from its children, and the label.
        It fails if the node or one of its children is not known, and then changes nothing,
        or if the values of a child are malformed, and then the label stays as it was. */
    method Update(fs: seq<Field>) returns (ok: bool)
      requires left == null <==> right == null
      requires left != null && left.known && right.known ==> left.values.Length == right.values.Length == |fs|
      modifies this`values, this`lbl, this`lent
      ensures ok <==> known && (left != null ==>
        left.known && right.known && ValuesOk(fs, old(left.values[..])) && ValuesOk(fs, old(right.values[..])))
      ensures !ok ==> Snapshot() == old(Snapshot()).(values := values) && lbl == old(lbl)
      ensures !ok && (left == null || !known || !left.known || !right.known) ==> values == old(values)
      ensures ok && left == null ==> Snapshot() == old(Snapshot()).(lbl := LeafLabel(key, values[..]))
      ensures ok && left != null ==>
        && fresh(values) && values[..] == ParentValues(fs, old(left.values[..]), old(right.values[..]))
        && Snapshot() == old(Snapshot()).(values := values, lent := false,
           lbl := InnerLabel(values[..], old(left.lbl), old(right.lbl)))
    {
      if !known {
        return false;
      }
      if left == null {
        lbl := LeafLabel(key, values[..]);
        return true;
      }
      if !left.known || !right.known {
        return false;
      }
      ghost var l, r := left.values[..], right.values[..];
      var lv, rv := left.values, right.values;
      var sums := new Bytes[|fs|];
      for i := 0 to |fs|
        invariant fresh(sums) && sums != lv && sums != rv && lv[..] == l && rv[..] == r
        invariant forall j :: 0 <= j < i ==> Parent(fs[j], l[j], r[j]) == Some(sums[j])
        invariant values == old(values) && lbl == old(lbl) && lent == old(lent)
      {
        assert lv[i] == l[i] && rv[i] == r[i];
        var sum := Parent(fs[i], lv[i], rv[i]);
        if sum == None {
          values := sums;
          assert !(WellFormed(fs[i], l[i]) && WellFormed(fs[i], r[i]));
          return false;
        }
        sums[i] := sum.value;
      }
      ParentsDefined(fs, l, r, sums[..]);
      values := sums;
      lent := false;
      lbl := InnerLabel(values[..], left.lbl, right.lbl);
      return true;
    }

    /** A placeholder becomes the leaf of a key. */
    method Fill(fs: seq<Field>, key: Bytes, raw: seq<Bytes>)
      requires known && left == null && right == null
      modifies this`key, this`values, this`lbl, this`lent
      ensures fresh(values) && values[..] == raw
      ensures Snapshot() == old(Snapshot()).(key := key, values := values, lent := false, lbl := LeafLabel(key, raw))
    {
      this.key := key;
      values := new Bytes[|raw|](i requires 0 <= i < |raw| => raw[i]);
      assert values[..] == raw;
      lent := false;
      var ok := Update(fs);
    }

    /** The loop of Set: the values that are to change are written into the slice. */
    method Overwrite(change: seq<Option<Bytes>>)
      requires values.Length == |change|
      modifies values
      ensures values[..] == Trie.Overwrite(old(values[..]), change)
      ensures forall i :: 0 <= i < |change| ==>
        values[i] == if change[i].Some? then change[i].value else old(values[i])
    {
      ghost var before := values[..];
      for i := 0 to |change|
        invariant forall j :: 0 <= j < i ==> values[j] == Trie.Overwrite(before, change)[j]
        invariant forall j :: i <= j < |change| ==> values[j] == before[j]
      {
        if change[i].Some? {
          values[i] := change[i].value;
        }
      }
      assert values[..] == Trie.Overwrite(before, change);
    }

    /** An internal node takes over the leaf beside a placeholder, with its slice of values. */
    method Lift()
      requires left != null && right != null
      modifies this`lbl, this`key, this`values, this`left, this`right, this`lent
      ensures
        var x := if old(left.IsPlaceholderNode()) then old(right.Snapshot()) else old(left.Snapshot());
        Snapshot() == old(Snapshot()).(lbl := x.lbl, key := x.key, values := x.values, left := null, right := null,
          lent := false)
    {
      if left.IsPlaceholderNode() {
        lbl := right.lbl;
        key := right.key;
        values := right.values;
      } else {
        lbl := left.lbl;
        key := left.key;
        values := left.values;
      }
      left := null;
      right := null;
      lent := false;
    }
  }

  lemma ParentsDefined(fs: seq<Field>, l: seq<Bytes>, r: seq<Bytes>, vs: seq<Bytes>)
    requires |fs| == |l| == |r| == |vs|
    requires forall j :: 0 <= j < |fs| ==> Parent(fs[j], l[j], r[j]) == Some(vs[j])
    ensures ValuesOk(fs, l) && ValuesOk(fs, r) && vs == ParentValues(fs, l, r)
  {
    forall j | 0 <= j < |fs| ensures WellFormed(fs[j], l[j]) && WellFormed(fs[j], r[j]) {
      assert Parent(fs[j], l[j], r[j]) == Some(vs[j]);
    }
    assert forall j :: 0 <= j < |fs| ==> vs[j] == ParentValues(fs, l, r)[j];
  }

  datatype Store = Store(root: Node, nodes: map<Path, Node>, orig: map<Path, Node>,
                         cells: map<Node, Cell>, slices: map<Slice, seq<Bytes>>)

  // ---- what a snapshot says ----

  ghost predicate Allocated(s: Store) {
    && (forall p :: p in s.nodes ==> s.nodes[p] in s.cells)
    && (forall p :: p in s.orig ==> s.orig[p] in s.cells)
    && (forall n :: n in s.cells ==> s.cells[n].values in s.slices)
    && (forall n :: n in s.cells && s.cells[n].backup.Some? ==> s.cells[n].backup.value.values in s.slices)
  }

  ghost function DataOf(s: Store, n: Node): NodeData
    requires n in s.cells && s.cells[n].values in s.slices
  {
    var c := s.cells[n];
    NodeData(c.known, if c.lent then Zero else c.lbl, c.key, if c.lent then []
      else s.slices[c.values], c.inconsistent)
  }

  /** The tree of the snapshot, laid out by paths. */
  ghost function TableOf(s: Store): Table
    requires Allocated(s)
  {
    map p | p in s.nodes :: DataOf(s, s.nodes[p])
  }

  ghost function TreeOf(s: Store): Tree
    requires Allocated(s)
  {
    Build(TableOf(s), [])
  }

  ghost predicate LeadsTo(nodes: map<Path, Node>, p: Path, n: Node?) {
    p in nodes && n == nodes[p]
  }

  /** The links of a node at path `p` lead to the nodes one step away, and only there. */
  ghost predicate LinkedIn(root: Node, nodes: map<Path, Node>, p: Path, parent: Node?, left: Node?, right: Node?)
    requires p in nodes
  {
    && |p| <= BITS
    && (if p == [] then nodes[p] == root && parent == null else LeadsTo(nodes, Up(p), parent))
    && (if left == null then right == null && p + [false] !in nodes && p + [true] !in nodes
        else LeadsTo(nodes, p + [false], left) && LeadsTo(nodes, p + [true], right))
  }

  ghost predicate Linked(s: Store, p: Path)
    requires Allocated(s) && p in s.nodes
  {
    var c := s.cells[s.nodes[p]];
    LinkedIn(s.root, s.nodes, p, c.parent, c.left, c.right)
  }

  ghost function SavedLeft(c: Cell): Node? {
    if c.backup.Some? then c.backup.value.left else c.left
  }

  ghost function SavedRight(c: Cell): Node? {
    if c.backup.Some? then c.backup.value.right else c.right
  }

  ghost function SavedSlice(c: Cell): Slice {
    if c.backup.Some? then c.backup.value.values else c.values
  }

  /** What a node would hold if it were restored now; flags are left aside. */
  ghost function SavedData(s: Store, n: Node): NodeData
    requires n in s.cells && SavedSlice(s.cells[n]) in s.slices
  {
    var c := s.cells[n];
    if c.backup.Some? then
      var b := c.backup.value;
      NodeData(b.known, b.lbl, b.key, s.slices[b.values], false)
    else NodeData(c.known, c.lbl, c.key, s.slices[c.values], false)
  }

  /** The tree that a rollback would bring back now. */
  ghost function SavedTable(s: Store): Table
    requires Allocated(s)
  {
    map p | p in s.orig :: SavedData(s, s.orig[p])
  }

  ghost predicate SavedLinked(s: Store, p: Path)
    requires Allocated(s) && p in s.orig
  {
    var c := s.cells[s.orig[p]];
    && (c.backup.Some? ==> c.backup.value.parent == c.parent)
    && LinkedIn(s.root, s.orig, p, c.parent, SavedLeft(c), SavedRight(c))
  }

  /** Two nodes of the tree show values from the same slice. */
  ghost predicate Clash(s: Store, p: Path, q: Path)
    requires Allocated(s)
  {
    && p in s.nodes && q in s.nodes && p != q
    && !s.cells[s.nodes[p]].lent && !s.cells[s.nodes[q]].lent
    && s.cells[s.nodes[p]].values == s.cells[s.nodes[q]].values
  }

  ghost predicate Unshared(s: Store)
    requires Allocated(s)
  {
    forall p, q :: !Clash(s, p, q)
  }

  /** The slice of a backup is the slice of a node of the tree. */
  ghost predicate BackupClash(s: Store, p: Path, q: Path)
    requires Allocated(s)
  {
    && p in s.orig && q in s.nodes && s.cells[s.orig[p]].backup.Some?
    && s.cells[s.orig[p]].backup.value.values == s.cells[s.nodes[q]].values
  }

  ghost predicate BackupsApart(s: Store)
    requires Allocated(s)
  {
    forall p, q :: !BackupClash(s, p, q)
  }

  /** A rollback would give two nodes the same slice. */
  ghost predicate SavedClash(s: Store, p: Path, q: Path)
    requires Allocated(s)
  {
    && p in s.orig && q in s.orig && p != q
    && SavedSlice(s.cells[s.orig[p]]) == SavedSlice(s.cells[s.orig[q]])
  }

  ghost predicate SavedApart(s: Store)
    requires Allocated(s)
  {
    forall p, q :: !SavedClash(s, p, q)
  }

  ghost predicate SavedKept(s: Store, s': Store) {
    && Allocated(s) && Allocated(s') && s'.orig == s.orig
    && forall p :: p in s.orig ==> SavedSlice(s'.cells[s.orig[p]]) == SavedSlice(s.cells[s.orig[p]])
  }

  lemma KeptApart(s: Store, s': Store)
    requires SavedKept(s, s') && SavedApart(s)
    ensures SavedApart(s')
  {
    forall x, y ensures !SavedClash(s', x, y) {
      assert !SavedClash(s, x, y);
    }
  }

  /** A node in both maps has the same path in both. */
  ghost predicate OnePath(a: map<Path, Node>, b: map<Path, Node>) {
    forall p, q :: p in a && q in b && a[p] == b[q] ==> p == q
  }

  ghost predicate OnePlace(s: Store) {
    OnePath(s.nodes, s.nodes) && OnePath(s.orig, s.orig) && OnePath(s.nodes, s.orig)
  }

  ghost predicate AllLinked(s: Store)
    requires Allocated(s)
  {
    && [] in s.nodes
    && (forall p {:trigger Linked(s, p)} :: p in s.nodes ==> Linked(s, p))
  }

  ghost predicate AllSavedLinked(s: Store)
    requires Allocated(s)
  {
    && (s.orig != map[] ==> [] in s.orig)
    && (forall p {:trigger SavedLinked(s, p)} :: p in s.orig ==> SavedLinked(s, p))
  }

  /** Nodes that a rollback keeps as they are show their own values. */
  ghost predicate SavedAlive(s: Store)
    requires Allocated(s)
  {
    forall p :: p in s.orig && s.cells[s.orig[p]].backup == None ==> !s.cells[s.orig[p]].lent
  }

  ghost predicate Inv(s: Store) {
    && Allocated(s) && AllLinked(s) && AllSavedLinked(s)
    && OnePlace(s) && Unshared(s) && BackupsApart(s) && SavedApart(s) && SavedAlive(s)
  }

  /** The tree of a snapshot, and what a rollback would bring back, for any snapshot whatever. */
  ghost function Now(s: Store): Table {
    if Allocated(s) then TableOf(s) else map[]
  }

  ghost function Saved(s: Store): Table {
    if Allocated(s) then SavedTable(s) else map[]
  }

  /** Node `n` is the one at path `p`. */
  ghost predicate Holds(s: Store, n: Node, p: Path) {
    Inv(s) && p in s.nodes && n == s.nodes[p]
  }

  ghost predicate CellAt(s: Store, n: Node, c: Cell) {
    n in s.cells && s.cells[n] == c
  }

  ghost predicate FreeAt(s: Store, p: Path) {
    Allocated(s) && p in s.nodes && Free(s, p)
  }

  lemma InvAllocated(s: Store)
    requires Inv(s)
    ensures Allocated(s) && Now(s) == TableOf(s) && Saved(s) == SavedTable(s)
  {
  }

  /** The node at path `p` may be written: it has a backup, or a rollback would drop it. */
  ghost predicate Free(s: Store, p: Path)
    requires Allocated(s) && p in s.nodes
  {
    p in s.orig && s.orig[p] == s.nodes[p] ==> s.cells[s.nodes[p]].backup.Some?
  }

  lemma TablePrefixed(s: Store)
    requires Allocated(s) && AllLinked(s)
    ensures Prefixed(TableOf(s))
  {
    forall p | p in TableOf(s) && p != [] ensures Up(p) in TableOf(s) {
      assert Linked(s, p);
    }
  }

  /** The shape of the subtree at a node. */
  lemma NodeShape(s: Store, p: Path)
    requires Allocated(s) && AllLinked(s) && p in s.nodes
    ensures
      var c := s.cells[s.nodes[p]];
      var t := Build(TableOf(s), p);
      && t.d == DataOf(s, s.nodes[p]) && |p| <= BITS
      && (t.Leaf? <==> c.left == null) && (c.left == null <==> c.right == null)
      && (t.Leaf? <==> Childless(TableOf(s), p))
      && (t.Inner? ==>
        && |p| < BITS && p + [false] in s.nodes && p + [true] in s.nodes
        && c.left == s.nodes[p + [false]] && c.right == s.nodes[p + [true]]
        && t.left == Build(TableOf(s), p + [false]) && t.right == Build(TableOf(s), p + [true]))
  {
    assert Linked(s, p);
    if s.cells[s.nodes[p]].left != null {
      assert Linked(s, p + [false]);
    }
  }

  lemma HoldsCell(s: Store, n: Node, p: Path)
    requires Holds(s, n, p)
    ensures p in s.nodes && s.nodes[p] == n && n in s.cells && s.cells[n].values in s.slices && |p| <= BITS
    ensures s.cells[n].left == null <==> s.cells[n].right == null
  {
    NodeShape(s, p);
  }

  // ---- one cell changes, its links do not ----

  ghost predicate SameLinks(c: Cell, c': Cell) {
    c'.parent == c.parent && c'.left == c.left && c'.right == c.right
  }

  /** `s'` differs from `s` in the cell of the node at path `p`. */
  ghost predicate Replaces(s: Store, p: Path, c: Cell, s': Store) {
    && Allocated(s) && Allocated(s') && p in s.nodes
    && SameLinks(s.cells[s.nodes[p]], c)
    && s'.root == s.root && s'.nodes == s.nodes && s'.orig == s.orig
    && s'.cells == s.cells[s.nodes[p] := c]
  }

  /** And it may have more slices. */
  ghost predicate Puts(s: Store, p: Path, c: Cell, s': Store) {
    && Replaces(s, p, c, s')
    && forall x :: x in s.slices ==> x in s'.slices && s'.slices[x] == s.slices[x]
  }

  lemma PutLinked(s: Store, p: Path, c: Cell, s': Store)
    requires Replaces(s, p, c, s') && AllLinked(s)
    ensures AllLinked(s')
  {
    forall q | q in s'.nodes ensures Linked(s', q) {
      assert Linked(s, q);
    }
  }

  lemma PutSavedLinked(s: Store, p: Path, c: Cell, s': Store)
    requires Replaces(s, p, c, s') && AllSavedLinked(s)
    requires
      var o := s.cells[s.nodes[p]];
      c.backup == o.backup || (o.backup == None && c.backup.Some?
        && c.backup.value.left == c.left && c.backup.value.right == c.right && c.backup.value.parent == c.parent)
    ensures AllSavedLinked(s')
  {
    forall q | q in s'.orig ensures SavedLinked(s', q) {
      assert SavedLinked(s, q);
    }
  }

  /** A write to a node: its flag may always be set, the rest only if the node may be written;
      values are only ever replaced by a slice nobody else has. */
  ghost predicate Writes(s: Store, p: Path, c: Cell, s': Store) {
    && Puts(s, p, c, s')
    && var o := s.cells[s.nodes[p]];
    && c.backup == o.backup
    && (Free(s, p) || (c.known == o.known && c.lbl == o.lbl && c.key == o.key && c.values == o.values
       && c.lent == o.lent))
    && (if c.values == o.values then c.lent == o.lent else c.values !in s.slices && !c.lent)
  }

  lemma WriteTable(s: Store, p: Path, c: Cell, s': Store)
    requires Writes(s, p, c, s') && OnePath(s.nodes, s.nodes)
    ensures TableOf(s') == TableOf(s)[p := DataOf(s', s.nodes[p])]
  {
    forall q | q in s.nodes && q != p ensures DataOf(s', s.nodes[q]) == DataOf(s, s.nodes[q]) {
      assert s.nodes[q] != s.nodes[p];
    }
  }

  lemma WriteSaved(s: Store, p: Path, c: Cell, s': Store)
    requires Writes(s, p, c, s') && OnePath(s.nodes, s.orig)
    ensures SavedTable(s') == SavedTable(s) && SavedKept(s, s')
  {
    forall q | q in s.orig ensures SavedData(s', s.orig[q]) == SavedData(s, s.orig[q]) {
      if s.orig[q] == s.nodes[p] {
        assert p == q;
      }
    }
  }

  lemma WriteSlices(s: Store, p: Path, c: Cell, s': Store)
    requires Writes(s, p, c, s') && OnePath(s.nodes, s.nodes) && Unshared(s)
    ensures Unshared(s')
  {
    forall x, y ensures !Clash(s', x, y) {
      assert !Clash(s, x, y);
    }
  }

  lemma WriteBackups(s: Store, p: Path, c: Cell, s': Store)
    requires Writes(s, p, c, s') && BackupsApart(s)
    ensures BackupsApart(s')
  {
    forall x, y ensures !BackupClash(s', x, y) {
      assert !BackupClash(s, x, y);
    }
  }

  lemma WriteAlive(s: Store, p: Path, c: Cell, s': Store)
    requires Writes(s, p, c, s') && OnePath(s.nodes, s.orig) && SavedAlive(s)
    ensures SavedAlive(s')
  {
  }

  lemma WriteInv(s: Store, p: Path, c: Cell, s': Store)
    requires Inv(s) && Writes(s, p, c, s')
    ensures Inv(s')
    ensures TableOf(s') == TableOf(s)[p := DataOf(s', s.nodes[p])]
    ensures SavedTable(s') == SavedTable(s)
  {
    PutLinked(s, p, c, s');
    PutSavedLinked(s, p, c, s');
    WriteTable(s, p, c, s');
    WriteSaved(s, p, c, s');
    KeptApart(s, s');
    WriteSlices(s, p, c, s');
    WriteBackups(s, p, c, s');
    WriteAlive(s, p, c, s');
  }

  /** A backup is made: the tree and what a rollback would bring back stay the same. */
  ghost predicate BacksUp(s: Store, p: Path, c: Cell, s': Store) {
    && Puts(s, p, c, s')
    && var o := s.cells[s.nodes[p]];
    && o.backup == None && c.backup.Some? && c == o.(backup := c.backup)
    && var b := c.backup.value;
    && b.known == o.known && b.lbl == o.lbl && b.key == o.key
    && b.left == o.left && b.right == o.right && b.parent == o.parent
    && b.values !in s.slices && s'.slices[b.values] == s.slices[o.values]
  }

  lemma BackupInv(s: Store, p: Path, c: Cell, s': Store)
    requires Inv(s) && BacksUp(s, p, c, s')
    ensures Inv(s') && TableOf(s') == TableOf(s) && SavedTable(s') == SavedTable(s)
  {
    PutLinked(s, p, c, s');
    PutSavedLinked(s, p, c, s');
    BackupTables(s, p, c, s');
    BackupSlices(s, p, c, s');
  }

  lemma BackupTables(s: Store, p: Path, c: Cell, s': Store)
    requires BacksUp(s, p, c, s')
    ensures TableOf(s') == TableOf(s) && SavedTable(s') == SavedTable(s)
  {
    forall q | q in s.nodes ensures DataOf(s', s.nodes[q]) == DataOf(s, s.nodes[q]) {
    }
    forall q | q in s.orig ensures SavedData(s', s.orig[q]) == SavedData(s, s.orig[q]) {
    }
  }

  lemma BackupSlices(s: Store, p: Path, c: Cell, s': Store)
    requires BacksUp(s, p, c, s') && OnePath(s.orig, s.orig)
    requires Unshared(s) && BackupsApart(s) && SavedApart(s) && SavedAlive(s)
    ensures Unshared(s') && BackupsApart(s') && SavedApart(s') && SavedAlive(s')
  {
    forall x, y ensures !SavedClash(s', x, y) {
      assert !SavedClash(s, x, y);
    }
    forall x, y ensures !Clash(s', x, y) {
      assert !Clash(s, x, y);
    }
    forall x, y ensures !BackupClash(s', x, y) {
      assert !BackupClash(s, x, y);
    }
  }

  // ---- the values of a leaf are overwritten in place ----

  /** The slice is also that of a node that is out of the tree but that a rollback would
      bring back without restoring it. */
  ghost predicate Frozen(s: Store, x: Slice, q: Path)
    requires Allocated(s)
  {
    && q in s.orig && s.cells[s.orig[q]].backup == None && s.cells[s.orig[q]].values == x
    && !(q in s.nodes && s.nodes[q] == s.orig[q])
  }

  ghost predicate Overwrites(s: Store, p: Path, c: Cell, vs: seq<Bytes>, s': Store) {
    && Allocated(s) && Allocated(s') && p in s.nodes && Free(s, p)
    && var o := s.cells[s.nodes[p]];
    && c == o.(lbl := c.lbl) && !o.lent
    && s' == s.(cells := s.cells[s.nodes[p] := c], slices := s.slices[o.values := vs])
  }

  lemma OverwriteTable(s: Store, p: Path, c: Cell, vs: seq<Bytes>, s': Store)
    requires Overwrites(s, p, c, vs, s') && OnePath(s.nodes, s.nodes) && Unshared(s)
    ensures TableOf(s') == TableOf(s)[p := DataOf(s', s.nodes[p])]
  {
    forall q | q in s.nodes && q != p ensures DataOf(s', s.nodes[q]) == DataOf(s, s.nodes[q]) {
      assert s.nodes[q] != s.nodes[p];
      assert !Clash(s, p, q);
    }
  }

  lemma OverwriteSaved(s: Store, p: Path, c: Cell, vs: seq<Bytes>, s': Store, q: Path)
    requires Overwrites(s, p, c, vs, s') && OnePath(s.nodes, s.orig) && Unshared(s) && BackupsApart(s)
      && SavedAlive(s)
    requires q in s.orig
    ensures SavedData(s', s.orig[q]) == if Frozen(s, s.cells[s.nodes[p]].values, q)
      then SavedData(s, s.orig[q]).(values := vs) else SavedData(s, s.orig[q])
  {
    var x := s.cells[s.nodes[p]].values;
    var o := s.cells[s.orig[q]];
    assert !BackupClash(s, q, p);
    assert !Clash(s, q, p);
  }

  lemma OverwriteSlices(s: Store, p: Path, c: Cell, vs: seq<Bytes>, s': Store)
    requires Overwrites(s, p, c, vs, s') && Unshared(s) && BackupsApart(s) && SavedAlive(s)
    ensures Unshared(s') && BackupsApart(s') && SavedAlive(s')
  {
    forall x, y ensures !Clash(s', x, y) {
      assert !Clash(s, x, y);
    }
    forall x, y ensures !BackupClash(s', x, y) {
      assert !BackupClash(s, x, y);
    }
  }

  /** What a rollback would bring back once the values in slice `x` have been overwritten. */
  ghost function SavedAfter(s: Store, x: Slice, vs: seq<Bytes>): Table
    requires Allocated(s)
  {
    map q | q in s.orig ::
      if Frozen(s, x, q) then SavedData(s, s.orig[q]).(values := vs) else SavedData(s, s.orig[q])
  }

  lemma OverwriteSavedTable(s: Store, p: Path, c: Cell, vs: seq<Bytes>, s': Store)
    requires Overwrites(s, p, c, vs, s') && OnePath(s.nodes, s.orig) && Unshared(s) && BackupsApart(s)
      && SavedAlive(s)
    ensures SavedTable(s') == SavedAfter(s, s.cells[s.nodes[p]].values, vs)
  {
    forall q | q in s.orig ensures SavedTable(s')[q] == SavedAfter(s, s.cells[s.nodes[p]].values, vs)[q] {
      OverwriteSaved(s, p, c, vs, s', q);
    }
  }

  lemma OverwriteInv(s: Store, p: Path, c: Cell, vs: seq<Bytes>, s': Store)
    requires Inv(s) && Overwrites(s, p, c, vs, s')
    ensures Inv(s')
    ensures TableOf(s') == TableOf(s)[p := DataOf(s', s.nodes[p])]
    ensures SavedTable(s') == SavedAfter(s, s.cells[s.nodes[p]].values, vs)
  {
    PutLinked(s, p, c, s');
    PutSavedLinked(s, p, c, s');
    OverwriteTable(s, p, c, vs, s');
    OverwriteSlices(s, p, c, vs, s');
    OverwriteSavedTable(s, p, c, vs, s');
    assert SavedKept(s, s');
    KeptApart(s, s');
  }

  ghost function SavedWith(s: Store, x: Slice, change: seq<Option<Bytes>>): Table {
    if Allocated(s) && x in s.slices then SavedAfter(s, x, Overwrite(s.slices[x], change)) else map[]
  }

  /** Making a backup of a node of the tree does not matter for later overwrites. */
  lemma BackupSavedWith(s: Store, n: Node, p: Path, s': Store, x: Slice, change: seq<Option<Bytes>>)
    requires Holds(s, n, p) && Holds(s', n, p) && Saved(s') == Saved(s) && s'.nodes == s.nodes && s'.orig == s.orig
    requires forall m :: m in s.cells && m != n ==> m in s'.cells && s'.cells[m] == s.cells[m]
    requires n in s.cells && n in s'.cells && x in s.slices && x in s'.slices && s'.slices[x] == s.slices[x]
    ensures SavedWith(s', x, change) == SavedWith(s, x, change)
  {
    forall q | q in s.orig ensures Frozen(s', x, q) == Frozen(s, x, q) {
    }
    forall q | q in s.orig ensures SavedData(s', s.orig[q]) == SavedData(s, s.orig[q]) {
      assert SavedTable(s')[q] == SavedTable(s)[q];
    }
  }

  /** The slice of values of the leaf of a key. */
  ghost predicate LeafSlice(s: Store, key: Bytes, x: Slice) {
    exists p :: p in s.nodes && LeafSliceAt(s, p, key, x)
  }

  ghost predicate LeafSliceAt(s: Store, p: Path, key: Bytes, x: Slice)
    requires p in s.nodes
  {
    s.nodes[p] in s.cells &&
    var c := s.cells[s.nodes[p]];
    c.known && c.left == null && !c.lent && c.key == key && c.values == x
  }

  lemma LeafSliceShown(s: Store, n: Node, p: Path, c: Cell)
    requires Holds(s, n, p) && CellAt(s, n, c) && c.known && c.left == null && !c.lent
    ensures LeafSlice(s, c.key, c.values)
  {
    assert LeafSliceAt(s, p, c.key, c.values);
  }
}
