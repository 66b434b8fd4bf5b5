/** New collections, new verifiers, and copies of collections. */
module Creation {
  import opened Fields
  import opened Trie
  import opened Mapping
  import opened Canonical
  import opened Scopes
  import opened Layout
  import opened Undo
  import opened Store
  import opened StoreShape
  import opened StoreMarks
  import opened StoreSteps
  import opened StoreWalk
  import opened StoreSweep
  import opened StoreEnd
  import opened Upkeep
  import opened Collections
  import opened Getters
  import Verifiers

  /** A single node that is not linked to anything. */
  lemma BareStill(root: Node, s: Store, c: Cell)
    requires s.root == root && s.nodes == map[[] := root] && s.orig == map[] && s.cells == map[root := c]
    requires c == Cell(false, Zero, [], c.values, false, false, None, null, null, null) && c.values in s.slices
      && s.slices[c.values] == []
    ensures Still(s) && Holds(s, root, []) && Build(Now(s), []) == Leaf(NodeData(false, Zero, [], [], false))
  {
    assert [] + [false] !in s.nodes && [] + [true] !in s.nodes;
    assert Linked(s, []);
  }

  lemma FreshStill(fs: seq<Field>, H: Hasher, scope: Scope, s: Store)
    requires Still(s) && ScopeOk(scope) && Upright(fs, H, false, TreeNow(s))
    ensures Proper(fs, H, scope, false, s)
  {
    StillMarks(s);
  }

  /** A known root with two placeholders can be relabelled. */
  lemma RootRenewable(fs: seq<Field>, s: Store, n: Node, p: Path)
    requires Still(s) && Holds(s, n, p)
    requires Build(Now(s), p).Inner? && CanUpdate(fs, Build(Now(s), p))
    ensures Mending(s) && RenewOk(fs, s, p) && RenewEnds(fs, s, p)
  {
    NodeShape(s, p);
  }

  lemma EmptyUpright(fs: seq<Field>, H: Hasher)
    ensures Upright(fs, H, false, Empty(fs))
  {
    EmptyFull(fs, H);
  }

  lemma MendedStill(s: Store)
    requires Mending(s) && NoneLent(s, [])
    ensures Still(s)
  {
    forall r | r in s.nodes ensures !s.cells[s.nodes[r]].lent {
      assert Under([], r);
    }
  }

  method Seed(fs: seq<Field>, H: Hasher, scope: Scope) returns (c: Collection)
    ensures fresh(c) && fresh(c.root) && fresh(c.world) && fresh(c.arrays) && c.fields == fs && c.H == H
      && c.scope == scope
    ensures c.autoCollect && !c.ongoing && c.id == 0 && c.root in c.world && c.root.left == null
      && !c.root.inconsistent
    ensures Still(c.S()) && Holds(c.S(), c.root, [])
    ensures Build(Now(c.S()), []) == Leaf(NodeData(false, Zero, [], [], false))
  {
    hide Still, Holds, Now, Build;
    c := new Collection.Bare(fs, H, scope);
    BareStill(c.root, c.S(), c.root.Snapshot());
  }

  /** setPlaceholder on a new node */
  method PutPlaceholder(c: Collection, n: Node, ghost p: Path)
    requires Still(c.S()) && Holds(c.S(), n, p) && n.left == null
    modifies c`arrays, n`known, n`key, n`values, n`left, n`right, n`lbl, n`lent
    ensures Still(c.S()) && Holds(c.S(), n, p) && Confined(old(c.S()), p, c.S())
    ensures Build(Now(c.S()), p) == Leaf(PlaceholderData(c.fields, n.inconsistent))
      && n.inconsistent == old(n.inconsistent)
    ensures old(c.arrays) <= c.arrays && fresh(c.arrays - old(c.arrays))
  {
    hide Still, Holds, OneCell, Now, Build, Confined;
    ghost var s, o := c.S(), n.Snapshot();
    HoldsCell(s, n, p);
    c.ClearRaw(n, p);
    WriteLeafDone(s, n, p, o, n.Snapshot(), c.S(), true, LeafLabel([], Placeholders(c.fields)), [],
      Placeholders(c.fields));
  }

  /** New */
  method New(fs: seq<Field>, H: Hasher) returns (c: Collection)
    ensures fresh(c) && fresh(c.world) && fresh(c.arrays) && c.fields == fs && c.H == H
    ensures c.Valid() && !c.ongoing && c.autoCollect && c.scope == SCOPE_ALL && c.id == 0
    ensures c.T() == Empty(fs)
  {
    hide Collection.S, Still, Holds, Now, Build, Confined, Proper, Update, Mending, RenewOk, RenewEnds, NoneLent,
      Upright, Refreshed;
    c := Seed(fs, H, SCOPE_ALL);
    Plant(c);
    EmptyUpright(fs, H);
    FreshStill(fs, H, SCOPE_ALL, c.S());
  }

  /** The root of a new collection: known, with two placeholders. */
  method Plant(c: Collection)
    requires Still(c.S()) && Holds(c.S(), c.root, []) && c.root.left == null && !c.root.inconsistent
    modifies c`arrays, c`world, c`nodes, c.root
    ensures Still(c.S()) && TreeNow(c.S()) == Empty(c.fields)
    ensures old(c.arrays) <= c.arrays && fresh(c.arrays - old(c.arrays)) && old(c.world) <= c.world
      && fresh(c.world - old(c.world))
  {
    hide c.S, CellAt, Inv, Still, Holds, Now, Build, Confined, Mending, RenewOk, RenewEnds, NoneLent;
    var n := c.root;
    c.Open(n, true, Zero, [], [], Zero, Zero, []);
    ghost var s0 := c.S();
    HoldsCell(s0, n, []);
    c.Shown(n);
    PutPlaceholder(c, n.left, [] + [false]);
    ghost var s1 := c.S();
    SiblingHolds(s0, n, [], n.Snapshot(), s1);
    PutPlaceholder(c, n.right, [] + [true]);
    ghost var s2 := c.S();
    StillInv(s0);
    StillInv(s1);
    StillInv(s2);
    JoinTree(s0, n, [], s1, s2);
    RootRenewable(c.fields, s2, n, []);
    c.Renew(n, []);
    MendedStill(c.S());
  }

  /** NewVerifier: only the label of an empty collection is known. */
  method NewVerifier(fs: seq<Field>, H: Hasher) returns (c: Collection)
    ensures fresh(c) && fresh(c.world) && fresh(c.arrays) && c.fields == fs && c.H == H
    ensures c.Valid() && !c.ongoing && c.autoCollect && c.scope == SCOPE_NONE && c.id == 0
    ensures c.T() == Verifiers.Stub(Empty(fs).d.lbl)
  {
    hide Collection.S, Still, Holds, Now, Build, Confined, Proper, Update;
    var empty := New(fs, H);
    RootLooked(empty);
    LookedStill(empty, empty.root, []);
    c := Seed(fs, H, SCOPE_NONE);
    c.WriteLeaf(c.root, false, empty.root.lbl, [], [], []);
    FreshStill(fs, H, SCOPE_NONE, c.S());
  }

  // ---- copies ----

  /** The walk of Clone: the subtree at `src` is copied to the node `dst`, without its flags. */
  method Copy(c: Collection, d: Collection, src: Node, dst: Node, ghost p: Path)
    requires c.Valid() && !c.ongoing && Holds(c.S(), src, p)
    requires Still(d.S()) && Holds(d.S(), dst, p) && dst in d.world && dst.left == null && !dst.inconsistent
    requires c != d && c.world !! d.world && c.arrays !! d.arrays
    modifies d`arrays, d`world, d`nodes, d.world
    ensures Still(d.S()) && Holds(d.S(), dst, p) && Confined(old(d.S()), p, d.S())
    ensures Build(Now(d.S()), p) == Plain(Build(Now(c.S()), p))
    ensures old(d.arrays) <= d.arrays && fresh(d.arrays - old(d.arrays)) && old(d.world) <= d.world
      && fresh(d.world - old(d.world))
    decreases BITS - |p|
  {
    hide c.S, CellAt, Proper, Inv, Still, Holds, Now, Build, Confined;
    Looked(c, src, p);
    LookedStill(c, src, p);
    ghost var s := d.S();
    if src.IsLeaf() {
      d.WriteLeaf(dst, src.known, src.lbl, src.key, src.values[..], p);
    } else {
      d.Open(dst, src.known, src.lbl, src.key, src.values[..], Zero, Zero, p);
      ghost var s0 := d.S();
      CopyChildren(c, d, src, dst, p);
      ConfinedThen(s, p, s0, d.S());
    }
  }

  method CopyChildren(c: Collection, d: Collection, src: Node, dst: Node, ghost p: Path)
    requires c.Valid() && !c.ongoing && Holds(c.S(), src, p) && src.left != null && src.right != null && |p| < BITS
    requires Holds(c.S(), src.left, p + [false]) && Holds(c.S(), src.right, p + [true])
    requires Still(d.S()) && Holds(d.S(), dst, p) && dst in d.world && dst.left != null && dst.right != null
      && dst.left != dst.right
    requires Holds(d.S(), dst.left, p + [false]) && dst.left in d.world && dst.left.left == null
      && !dst.left.inconsistent
    requires Holds(d.S(), dst.right, p + [true]) && dst.right in d.world && dst.right.left == null
      && !dst.right.inconsistent
    requires Build(Now(d.S()), p).Inner?
    requires c != d && c.world !! d.world && c.arrays !! d.arrays
    modifies d`arrays, d`world, d`nodes, d.world
    ensures Still(d.S()) && Holds(d.S(), dst, p) && Confined(old(d.S()), p, d.S())
    ensures Build(Now(d.S()), p) == Inner(old(Build(Now(d.S()), p).d),
      Plain(Build(Now(c.S()), p + [false])), Plain(Build(Now(c.S()), p + [true])))
    ensures old(d.arrays) <= d.arrays && fresh(d.arrays - old(d.arrays)) && old(d.world) <= d.world
      && fresh(d.world - old(d.world))
    decreases BITS - |p|, 0
  {
    hide c.S, Proper, Inv, Still, Holds, Now, Build, Confined;
    ghost var s0 := d.S();
    HoldsCell(s0, dst, p);
    HoldsCell(s0, dst.right, p + [true]);
    d.Shown(dst);
    d.Shown(dst.right);
    Looked(c, src, p);
    ghost var x := dst.Snapshot();
    Copy(c, d, src.left, dst.left, p + [false]);
    ghost var s1 := d.S();
    SiblingHolds(s0, dst, p, x, s1);
    d.Shown(dst);
    d.Shown(dst.right);
    Copy(c, d, src.right, dst.right, p + [true]);
    ghost var s2 := d.S();
    StillInv(s0);
    StillInv(s1);
    StillInv(s2);
    JoinTree(s0, dst, p, s1, s2);
  }

  lemma PlainUpright(fs: seq<Field>, H: Hasher, t: Tree)
    requires Upright(fs, H, false, t)
    ensures Upright(fs, H, false, Plain(t))
  {
    PlainKeeps(fs, H, t, []);
    PlainClosed(t);
  }

  lemma {:induction false} PlainClosed(t: Tree)
    ensures Lazy.Closed(Plain(t))
  {
    if t.Inner? {
      PlainClosed(t.left);
      PlainClosed(t.right);
    }
  }

  /** Clone: a collection of its own with the same tree; it panics during a transaction. */
  method Clone(c: Collection) returns (d: Collection)
    requires c.Valid() && !c.ongoing
    ensures fresh(d) && fresh(d.world) && fresh(d.arrays) && d.fields == c.fields && d.H == c.H
    ensures d.Valid() && !d.ongoing && d.autoCollect == c.autoCollect && d.scope == c.scope && d.id == 0
    ensures d.T() == Plain(c.T()) && c.T() == old(c.T())
  {
    hide Collection.S, Still, Holds, Now, Build, Confined, Proper, Upright;
    RootLooked(c);
    ProperUpright(c.fields, c.H, c.scope, false, c.S());
    PlainUpright(c.fields, c.H, c.T());
    d := Seed(c.fields, c.H, c.scope);
    d.autoCollect := c.autoCollect;
    Copy(c, d, c.root, d.root, []);
    FreshStill(c.fields, c.H, c.scope, d.S());
  }
}
