/** Which leaves share their slice of values with a node that a rollback would bring back as it
    is, and what each call of a transaction does to that. */
module StoreTies {
  import opened Fields
  import opened Trie
  import opened Mapping
  import opened Canonical
  import opened Scopes
  import opened Layout
  import opened Undo
  import opened Store
  import opened StoreShape
  import opened StoreMarks
  import opened StoreSteps
  import opened StoreWalk
  import opened StoreSweep
  import opened Upkeep
  import opened StoreEnd

  // ---- slices that a rollback brings back ----

  /** Some node would be brought back as it is with this slice; */
  ghost predicate Original(s: Store, x: Slice) {
    exists q :: Lends(s, q, x)
  }

  /** and that node is out of the tree. */
  ghost predicate Adrift(s: Store, x: Slice) {
    exists q :: Lends(s, q, x) && !InTree(s, q)
  }

  ghost predicate LeafOf(s: Store, q: Path, k: Bytes) {
    q in s.orig && s.orig[q] in s.cells && s.cells[s.orig[q]].left == null && s.cells[s.orig[q]].key == k
  }

  /** A node with the slice of a leaf is a leaf of the same key. */
  ghost predicate Keyed(s: Store) {
    forall p, k, x, q :: x in s.slices && Shows(s, p, k, x) && Lends(s, q, x) ==> LeafOf(s, q, k)
  }

  ghost predicate Tells(s: Store, w: Ties, k: Bytes, x: Slice) {
    (k in w.risky <==> Adrift(s, x)) && (k in w.owned <==> !Original(s, x))
  }

  /** The ties of all leaves are as `w` says, and the root has no backup. */
  ghost predicate Tied(fs: seq<Field>, H: Hasher, s: Store, w: Ties) {
    && Placed(fs, H, SavedTree(s), []) && Keyed(s) && Untouched(s, [])
    && forall p, k, x :: x in s.slices && Shows(s, p, k, x) ==> Tells(s, w, k, x)
  }

  // ---- leaves and their places ----

  lemma {:induction false} PlacedAt(fs: seq<Field>, H: Hasher, m: Table, r: Path)
    requires Laid(m) && Placed(fs, H, Build(m, []), []) && r in m
    ensures Placed(fs, H, Build(m, r), r)
    decreases |r|
  {
    if r != [] {
      LaidUp(m, r);
      PlacedAt(fs, H, m, Up(r));
    }
  }

  ghost predicate KeyedLeaf(m: Table, p: Path, k: Bytes) {
    p in m && Childless(m, p) && m[p].key == k && k != []
  }

  lemma LeafPlaced(fs: seq<Field>, H: Hasher, m: Table, p: Path, k: Bytes)
    requires Laid(m) && Placed(fs, H, Build(m, []), []) && KeyedLeaf(m, p, k)
    ensures p <= H(k) && m[p].known
  {
    PlacedAt(fs, H, m, p);
  }

  lemma {:induction false} LaidPrefix(m: Table, p: Path, q: Path)
    requires Laid(m) && q in m && p < q
    ensures p in m && !Childless(m, p)
    decreases |q|
  {
    LaidUp(m, q);
    if Up(q) == p {
      assert p + [LastStep(q)] in m;
    } else {
      assert p == q[..|p|] == Up(q)[..|p|];
      LaidPrefix(m, p, Up(q));
    }
  }

  lemma LaidLeaf(m: Table, p: Path)
    requires Laid(m) && p in m
    ensures Build(m, p).Leaf? <==> Childless(m, p)
  {
    if p + [false] in m {
      assert Up(p + [false]) == p;
      LaidUp(m, p + [false]);
    } else if p + [true] in m {
      assert Up(p + [true]) == p;
      LaidUp(m, p + [true]);
    }
  }

  /** On one path there is only one leaf. */
  lemma OneLeaf(m: Table, p: Path, q: Path, h: Path)
    requires Laid(m) && p in m && q in m && p <= h && q <= h && Childless(m, p) && Childless(m, q)
    ensures p == q
  {
    if |p| < |q| {
      assert p == h[..|p|] && q == h[..|q|];
      assert p < q;
      LaidPrefix(m, p, q);
    } else if |q| < |p| {
      assert p == h[..|p|] && q == h[..|q|];
      assert q < p;
      LaidPrefix(m, q, p);
    } else {
      assert p == h[..|p|] && q == h[..|q|];
    }
  }

  lemma {:induction false} StoredLeaf(m: Table, r: Path, k: Bytes) returns (p: Path)
    requires Laid(m) && r in m && k in Stored(Build(m, r))
    ensures KeyedLeaf(m, p, k)
    decreases BITS - |r|
  {
    LaidLeaf(m, r);
    if Build(m, r).Inner? {
      if k in Stored(Build(m, r).right) {
        p := StoredLeaf(m, r + [true], k);
      } else {
        p := StoredLeaf(m, r + [false], k);
      }
    } else {
      p := r;
    }
  }

  lemma {:induction false} LeafStored(m: Table, r: Path, k: Bytes)
    requires Laid(m) && r in m && k in Stored(Build(m, r))
    ensures k in Stored(Build(m, []))
    decreases |r|
  {
    if r != [] {
      LaidUp(m, r);
      LeafStored(m, Up(r), k);
    }
  }

  /** A leaf has risen if it sits where there was an internal node. */
  lemma {:induction false} RaisedLeaf(m: Table, m': Table, r: Path, k: Bytes) returns (z: Path)
    requires r in m && r in m' && k in Raised(Build(m, r), Build(m', r)) && Laid(m) && Laid(m')
    ensures KeyedLeaf(m', z, k) && z in m && !Childless(m, z)
    decreases BITS - |r|
  {
    LaidLeaf(m, r);
    LaidLeaf(m', r);
    if Build(m', r).Inner? {
      if k in Raised(Build(m, r).left, Build(m', r).left) {
        z := RaisedLeaf(m, m', r + [false], k);
      } else {
        z := RaisedLeaf(m, m', r + [true], k);
      }
    } else {
      z := r;
    }
  }

  /** A leaf that a growing tree moves goes down, and leaves an internal node behind. */
  lemma GrownPlaces(fs: seq<Field>, H: Hasher, m: Table, m': Table, y: Path, z: Path, k: Bytes)
    requires Laid(m) && Laid(m') && Placed(fs, H, Build(m, []), []) && Placed(fs, H, Build(m', []), [])
    requires KeyedLeaf(m, y, k) && KeyedLeaf(m', z, k) && m.Keys <= m'.Keys && [] in m
    ensures k in Raised(Build(m', []), Build(m, [])) <==> z != y
    ensures z != y ==> !Childless(m', y)
  {
    LeafPlaced(fs, H, m, y, k);
    LeafPlaced(fs, H, m', z, k);
    if z != y {
      if |z| <= |y| {
        OrderedPaths(z, y, H(k));
        LaidPrefix(m', z, y);
        assert false;
      }
      OrderedPaths(y, z, H(k));
      LaidPrefix(m', y, z);
      assert RaisedAt(m', m, y);
      RaisedLeafIn(m', m, y);
    }
    if k in Raised(Build(m', []), Build(m, [])) {
      var v := RaisedLeaf(m', m, [], k);
      LeafPlaced(fs, H, m, v, k);
      OneLeaf(m, v, y, H(k));
    }
  }

  lemma OrderedPaths(p: Path, q: Path, h: Path)
    requires p <= h && q <= h && |p| <= |q| && p != q
    ensures p < q
  {
    assert p == h[..|p|] && q == h[..|q|];
  }

  /** The path of a stored key leads past the leaves of other keys. */
  lemma Uncrossed(fs: seq<Field>, H: Hasher, m: Table, y: Path, k: Bytes, key: Bytes)
    requires Laid(m) && Placed(fs, H, Build(m, []), []) && [] in m
    requires KeyedLeaf(m, y, k) && key in Stored(Build(m, [])) && k != key
    ensures !(y <= H(key))
  {
    var v := StoredLeaf(m, [], key);
    LeafPlaced(fs, H, m, v, key);
    if y <= H(key) {
      OneLeaf(m, v, y, H(key));
    }
  }

  // ---- what a call leaves of the ties ----

  /** The snapshots before and after a call that succeeds in a transaction. */
  ghost predicate Called(fs: seq<Field>, H: Hasher, scope: Scope, op: Op, s: Store, s': Store) {
    && Proper(fs, H, scope, true, s) && Proper(fs, H, scope, true, s') && OpOk(fs, op) && op.key != []
    && Apply(fs, H, true, op, TreeNow(s)) == Ok(TreeNow(s'))
    && Lineage(s, s', H(op.key), if op.Add? then op.key else [])
    && (if op.Add? then Extends(s.nodes, s'.nodes) else Extends(s'.nodes, s.nodes))
    && (op.Set? ==> Extends(s.nodes, s'.nodes))
  }

  lemma ShownLeaf(fs: seq<Field>, H: Hasher, scope: Scope, s: Store, p: Path, k: Bytes, x: Slice)
    requires Proper(fs, H, scope, true, s) && Shows(s, p, k, x)
    ensures KeyedLeaf(Now(s), p, k) && k in Stored(TreeNow(s))
  {
    ProperLaid(fs, H, scope, s);
    NodeShape(s, p);
    LeafPlaced(fs, H, Now(s), p, k);
    LeafStored(Now(s), p, k);
  }

  lemma ProperLaid(fs: seq<Field>, H: Hasher, scope: Scope, s: Store)
    requires Proper(fs, H, scope, true, s)
    ensures Inv(s) && Laid(Now(s)) && Placed(fs, H, Build(Now(s), []), []) && [] in Now(s)
  {
    TableLaid(s);
  }

  lemma OneLender(s: Store, q: Path, r: Path, x: Slice)
    requires Inv(s) && Lends(s, q, x) && Lends(s, r, x)
    ensures q == r
  {
    assert !SavedClash(s, q, r);
  }

  lemma LenderShown(s: Store, y: Path, k: Bytes, x: Slice, q: Path)
    requires Inv(s) && Shows(s, y, k, x) && Lends(s, q, x) && InTree(s, q)
    ensures q == y
  {
    assert !Clash(s, q, y);
  }

  lemma KeepsSlice(s: Store, s': Store, h: Path, x: Slice)
    requires Undisturbed(s, s', h)
    ensures Adrift(s, x) ==> Adrift(s', x)
    ensures Original(s', x) ==> Original(s, x)
    ensures (Adrift(s, x) ==> Original(s, x)) && (Adrift(s', x) ==> Original(s', x))
  {
    if q :| Lends(s, q, x) && !InTree(s, q) {
      assert Lends(s', q, x) && !InTree(s', q);
    }
    if q :| Lends(s', q, x) {
      assert Lends(s, q, x);
    }
  }

  lemma NewSlice(s: Store, s': Store, h: Path, x: Slice)
    requires Allocated(s) && Undisturbed(s, s', h) && x !in s.slices
    ensures !Original(s', x)
  {
    KeepsSlice(s, s', h, x);
  }

  /** A leaf that is the node Begin found: from then on the slice is its own if the node has got
      a backup, and adrift if the leaf is now another node. */
  lemma Moves(s: Store, s': Store, h: Path, y: Path, z: Path, k: Bytes, x: Slice)
    requires Inv(s) && Inv(s') && Undisturbed(s, s', h) && (Extends(s.nodes, s'.nodes) || Extends(s'.nodes, s.nodes))
    requires Shows(s, y, k, x) && Shows(s', z, k, x) && Lends(s, y, x) && InTree(s, y)
    ensures Original(s', x) <==> Untouched(s', y)
    ensures Adrift(s', x) <==> Untouched(s', y) && z != y
  {
    if Untouched(s', y) {
      assert Lends(s', y, x);
      if z == y {
        assert InTree(s', y);
      } else if InTree(s', y) {
        LenderShown(s', z, k, x, y);
      }
    }
    forall q | Lends(s', q, x) ensures q == y {
      assert Lends(s, q, x);
      OneLender(s, q, y, x);
    }
  }

  lemma LenderFound(s: Store, y: Path, k: Bytes, x: Slice)
    requires Inv(s) && Shows(s, y, k, x) && Original(s, x) && !Adrift(s, x)
    ensures Lends(s, y, x) && InTree(s, y)
  {
    var q :| Lends(s, q, x);
    LenderShown(s, y, k, x, q);
  }

  lemma KeyedOn(s: Store, s': Store, h: Path, key: Bytes)
    requires Allocated(s) && Keyed(s) && Lineage(s, s', h, key)
    ensures Keyed(s')
  {
    forall p, k, x, q | x in s'.slices && Shows(s', p, k, x) && Lends(s', q, x) ensures LeafOf(s', q, k) {
      assert Lends(s, q, x);
      var r :| Shows(s, r, k, x);
      assert LeafOf(s, q, k);
    }
  }

  /** What was stored before a call, and what is now. */
  lemma CalledStored(fs: seq<Field>, H: Hasher, scope: Scope, op: Op, s: Store, s': Store)
    requires Called(fs, H, scope, op, s, s')
    ensures Apply(fs, H, true, op, TreeNow(s)) == Ok(TreeNow(s'))
    ensures MapOp(op, Stored(TreeNow(s))) == Some(Stored(TreeNow(s')))
    ensures Proper(fs, H, scope, true, s) && Proper(fs, H, scope, true, s') && Allocated(s)
    ensures Undisturbed(s, s', H(op.key)) && HandsOn(s, s', if op.Add? then op.key else [])
    ensures if op.Add? then Extends(s.nodes, s'.nodes) else Extends(s'.nodes, s.nodes)
    ensures op.Set? ==> Extends(s.nodes, s'.nodes)
    ensures Inv(s) && Laid(Now(s)) && Placed(fs, H, TreeNow(s), []) && [] in Now(s)
    ensures Inv(s') && Laid(Now(s')) && Placed(fs, H, TreeNow(s'), []) && [] in Now(s')
  {
    ProperLaid(fs, H, scope, s);
    ProperLaid(fs, H, scope, s');
    ApplyOk(fs, H, op, TreeNow(s));
  }

  lemma TiedTells(fs: seq<Field>, H: Hasher, s: Store, w: Ties, y: Path, k: Bytes, x: Slice)
    requires Tied(fs, H, s, w) && Shows(s, y, k, x)
    ensures x in s.slices && k != [] && Tells(s, w, k, x)
  {
  }

  lemma HandedFrom(s: Store, s': Store, key: Bytes, z: Path, k: Bytes, x: Slice) returns (y: Path)
    requires HandsOn(s, s', key) && x in s'.slices && Shows(s', z, k, x) && (x in s.slices || key == [])
    ensures Shows(s, y, k, x)
  {
    assert Shows(s', z, k, x) ==> k != [];
    y :| Shows(s, y, k, x);
  }

  lemma FreshKey(s: Store, s': Store, key: Bytes, z: Path, k: Bytes, x: Slice)
    requires HandsOn(s, s', key) && x in s'.slices && Shows(s', z, k, x) && x !in s.slices
    ensures k == key
  {
  }

  lemma ExtendsKeys(s: Store, s': Store)
    requires Inv(s) && Inv(s') && Extends(s.nodes, s'.nodes)
    ensures Now(s).Keys <= Now(s').Keys
  {
  }

  /** A leaf still to be found in the node of Begin, before a call on another key. */
  ghost predicate Rests(s: Store, y: Path, k: Bytes, x: Slice) {
    Shows(s, y, k, x) && Lends(s, y, x) && InTree(s, y)
  }

  lemma InnerTouched(s: Store, s': Store, h: Path, y: Path, k: Bytes, x: Slice)
    requires Inv(s') && Undisturbed(s, s', h) && Extends(s.nodes, s'.nodes) && Rests(s, y, k, x)
      && !Childless(Now(s'), y)
    ensures !Untouched(s', y)
  {
    NodeShape(s', y);
  }

  lemma OffPathUntouched(s: Store, s': Store, h: Path, y: Path, k: Bytes, x: Slice)
    requires Undisturbed(s, s', h) && Rests(s, y, k, x) && !(y <= h)
    ensures Untouched(s', y)
  {
  }

  /** It is backed up exactly if it makes room for the new key. */
  lemma AddMoves(fs: seq<Field>, H: Hasher, scope: Scope, op: Op, s: Store, s': Store, y: Path, z: Path, k: Bytes,
      x: Slice)
    requires Called(fs, H, scope, op, s, s') && op.Add? && k != op.key && Rests(s, y, k, x) && Shows(s', z, k, x)
    ensures k in Raised(TreeNow(s'), TreeNow(s)) <==> !Untouched(s', y)
    ensures Untouched(s', y) ==> z == y
  {
    hide Called, Inv, Proper, Placed, Laid, Apply, Raised, Stored, Now, Undisturbed, HandsOn, Untouched, InTree,
      Lends, Extends, KeyedLeaf;
    CalledStored(fs, H, scope, op, s, s');
    ShownLeaf(fs, H, scope, s, y, k, x);
    ShownLeaf(fs, H, scope, s', z, k, x);
    ExtendsKeys(s, s');
    GrownPlaces(fs, H, Now(s), Now(s'), y, z, k);
    if z == y {
      Uncrossed(fs, H, Now(s'), z, k, op.key);
      OffPathUntouched(s, s', H(op.key), y, k, x);
    } else {
      InnerTouched(s, s', H(op.key), y, k, x);
    }
  }

  /** It is not backed up, whatever becomes of it. */
  lemma RemoveMoves(fs: seq<Field>, H: Hasher, scope: Scope, op: Op, s: Store, s': Store, y: Path, z: Path, k: Bytes,
      x: Slice)
    requires Called(fs, H, scope, op, s, s') && !op.Add? && k != op.key && Rests(s, y, k, x) && Shows(s', z, k, x)
    ensures k in Raised(TreeNow(s), TreeNow(s')) <==> z != y
    ensures Untouched(s', y)
  {
    CalledStored(fs, H, scope, op, s, s');
    ShownLeaf(fs, H, scope, s, y, k, x);
    ShownLeaf(fs, H, scope, s', z, k, x);
    ExtendsKeys(s', s);
    GrownPlaces(fs, H, Now(s'), Now(s), z, y, k);
    Uncrossed(fs, H, Now(s), y, k, op.key);
  }

  /** A Set moves no leaf. */
  lemma SetMoves(fs: seq<Field>, H: Hasher, scope: Scope, op: Op, s: Store, s': Store, y: Path, z: Path, k: Bytes,
      x: Slice)
    requires Called(fs, H, scope, op, s, s') && op.Set? && Shows(s, y, k, x) && Shows(s', z, k, x)
    ensures z == y
  {
    CalledStored(fs, H, scope, op, s, s');
    ShownLeaf(fs, H, scope, s, y, k, x);
    ShownLeaf(fs, H, scope, s', z, k, x);
    ExtendsKeys(s', s);
    ExtendsKeys(s, s');
    GrownPlaces(fs, H, Now(s), Now(s'), y, z, k);
    GrownPlaces(fs, H, Now(s'), Now(s), z, y, k);
    LeafPlaced(fs, H, Now(s), y, k);
    LeafPlaced(fs, H, Now(s'), z, k);
    OneLeaf(Now(s), y, z, H(k));
  }

  lemma TellsAdd(fs: seq<Field>, H: Hasher, scope: Scope, op: Op, s: Store, s': Store, w: Ties, z: Path, k: Bytes,
      x: Slice)
    requires Called(fs, H, scope, op, s, s') && op.Add? && Tied(fs, H, s, w) && x in s'.slices && Shows(s', z, k, x)
    ensures Tells(s', Retie(fs, H, op, TreeNow(s), w), k, x)
  {
    hide Called, Inv, Proper, Placed, Laid, Apply, Raised, Stored, TreeNow, Now, Undisturbed, HandsOn, Shows, Tied,
      Lends, InTree, Untouched, Original, Adrift, Extends;
    CalledStored(fs, H, scope, op, s, s');
    KeepsSlice(s, s', H(op.key), x);
    if x !in s.slices {
      FreshKey(s, s', op.key, z, k, x);
      NewSlice(s, s', H(op.key), x);
    } else {
      var y := HandedFrom(s, s', if op.Add? then op.key else [], z, k, x);
      ShownLeaf(fs, H, scope, s, y, k, x);
      TiedTells(fs, H, s, w, y, k, x);
      if Original(s, x) && !Adrift(s, x) {
        LenderFound(s, y, k, x);
        AddMoves(fs, H, scope, op, s, s', y, z, k, x);
        Moves(s, s', H(op.key), y, z, k, x);
      }
    }
  }

  lemma TellsRemove(fs: seq<Field>, H: Hasher, scope: Scope, op: Op, s: Store, s': Store, w: Ties, z: Path, k: Bytes,
      x: Slice)
    requires Called(fs, H, scope, op, s, s') && op.Remove? && Tied(fs, H, s, w) && x in s'.slices
      && Shows(s', z, k, x)
    ensures Tells(s', Retie(fs, H, op, TreeNow(s), w), k, x)
  {
    hide Called, Inv, Proper, Placed, Laid, Apply, Raised, Stored, TreeNow, Now, Undisturbed, HandsOn, Shows, Tied,
      Lends, InTree, Untouched, Original, Adrift, Extends;
    CalledStored(fs, H, scope, op, s, s');
    KeepsSlice(s, s', H(op.key), x);
    ShownLeaf(fs, H, scope, s', z, k, x);
    var y := HandedFrom(s, s', if op.Add? then op.key else [], z, k, x);
    TiedTells(fs, H, s, w, y, k, x);
    if Original(s, x) && !Adrift(s, x) {
      LenderFound(s, y, k, x);
      RemoveMoves(fs, H, scope, op, s, s', y, z, k, x);
      Moves(s, s', H(op.key), y, z, k, x);
    }
  }

  /** The one leaf of the key shows the slice that Set writes to. */
  lemma SetSlice(fs: seq<Field>, H: Hasher, scope: Scope, s: Store, y: Path, k: Bytes, x: Slice, x0: Slice)
    requires Proper(fs, H, scope, true, s) && Shows(s, y, k, x) && LeafSlice(s, k, x0)
    ensures x == x0
  {
    var v :| v in s.nodes && LeafSliceAt(s, v, k, x0);
    ProperLaid(fs, H, scope, s);
    assert Shows(s, v, k, x0);
    ShownLeaf(fs, H, scope, s, y, k, x);
    ShownLeaf(fs, H, scope, s, v, k, x0);
    LeafPlaced(fs, H, Now(s), y, k);
    LeafPlaced(fs, H, Now(s), v, k);
    OneLeaf(Now(s), y, v, H(k));
  }

  lemma OwnedTouched(s: Store, s': Store, h: Path, y: Path, k: Bytes, x: Slice)
    requires Rests(s, y, k, x) && Undisturbed(s, s', h) && Extends(s.nodes, s'.nodes) && Owned(s', x)
    ensures !Untouched(s', y)
  {
    if Untouched(s', y) {
      assert Lends(s', y, x) && InTree(s', y);
    }
  }

  lemma TellsSet(fs: seq<Field>, H: Hasher, scope: Scope, op: Op, s: Store, s': Store, w: Ties, x0: Slice, z: Path,
      k: Bytes, x: Slice)
    requires Called(fs, H, scope, op, s, s') && op.Set? && Tied(fs, H, s, w) && x in s'.slices && Shows(s', z, k, x)
    requires LeafSlice(s, op.key, x0) && Owned(s', x0)
    ensures Tells(s', Retie(fs, H, op, TreeNow(s), w), k, x)
  {
    hide Called, Inv, Proper, Placed, Laid, Apply, Raised, Stored, TreeNow, Now, Undisturbed, HandsOn, Shows, Tied,
      Lends, InTree, Untouched, Original, Adrift, Extends;
    CalledStored(fs, H, scope, op, s, s');
    KeepsSlice(s, s', H(op.key), x);
    var y := HandedFrom(s, s', if op.Add? then op.key else [], z, k, x);
    SetMoves(fs, H, scope, op, s, s', y, z, k, x);
    TiedTells(fs, H, s, w, y, k, x);
    if Original(s, x) && !Adrift(s, x) {
      LenderFound(s, y, k, x);
      Moves(s, s', H(op.key), y, z, k, x);
      if k == op.key {
        SetSlice(fs, H, scope, s, y, k, x, x0);
        OwnedTouched(s, s', H(op.key), y, k, x);
      } else {
        RemoveMoves(fs, H, scope, op, s, s', y, z, k, x);
      }
    }
  }

  // ---- what a call does to the tree that a rollback brings back ----

  /** Writing to the leaf at the end of a path. */
  lemma {:induction false} StainBuild(m: Table, m': Table, p: Path, q: Path, h: Path, change: seq<Option<Bytes>>)
    requires Laid(m) && q in m && Childless(m, q) && p in m && p <= q <= h
    requires m' == m[q := m[q].(values := Overwrite(m[q].values, change))]
    ensures Build(m', p) == Stain(Build(m, p), h[|p|..], change)
    decreases |q| - |p|
  {
    LaidLeaf(m, p);
    if p == q {
      PutData(m, p, m'[p]);
    } else {
      OrderedPaths(p, q, q);
      LaidPrefix(m, p, q);
      var b := q[|p|];
      assert q[..|p| + 1] == p + [b];
      assert h[|p|..][0] == b && h[|p|..][1..] == h[|p + [b]|..];
      StainBuild(m, m', p + [b], q, h, change);
      assert (p + [!b])[|p|] != q[|p|];
      BuildFrame(m, m', p + [!b]);
    }
  }

  lemma SavedLaid(s: Store)
    requires Inv(s)
    ensures Laid(Saved(s))
  {
    forall r ensures LaidAt(Saved(s), r) {
      if r in s.orig {
        assert SavedLinked(s, r);
        if r != [] {
          UpLast(r);
          assert SavedLinked(s, Up(r));
        }
      }
    }
  }

  lemma LenderLeaf(s: Store, q: Path, k: Bytes, x: Slice)
    requires Inv(s) && Lends(s, q, x) && LeafOf(s, q, k) && k != []
    ensures KeyedLeaf(Saved(s), q, k) && x in s.slices && Saved(s)[q].values == s.slices[x]
  {
    assert SavedLinked(s, q);
  }

  /** If the slice is that of node `q` out of the tree, the values there change, too. */
  lemma SavedWithOne(s: Store, q: Path, x: Slice, change: seq<Option<Bytes>>)
    requires Inv(s) && Lends(s, q, x) && !InTree(s, q) && x in s.slices && q in Saved(s)
    requires Saved(s)[q].values == s.slices[x]
    ensures SavedWith(s, x, change) == Saved(s)[q := Saved(s)[q].(values := Overwrite(Saved(s)[q].values, change))]
  {
    forall r | r in s.orig && Frozen(s, x, r) ensures r == q {
      OneLender(s, q, r, x);
    }
  }

  lemma SavedWithNone(s: Store, x: Slice, change: seq<Option<Bytes>>)
    requires Inv(s) && !Adrift(s, x) && x in s.slices
    ensures SavedWith(s, x, change) == Saved(s)
  {
    forall q ensures !Frozen(s, x, q) {
      assert Frozen(s, x, q) ==> Lends(s, q, x) && !InTree(s, q);
    }
    assert SavedWith(s, x, change) == Saved(s);
  }

  lemma SliceShows(s: Store, k: Bytes, x: Slice) returns (y: Path)
    requires Inv(s) && LeafSlice(s, k, x) && k != []
    ensures Shows(s, y, k, x)
  {
    y :| y in s.nodes && LeafSliceAt(s, y, k, x);
  }

  lemma KeyedLeafOf(fs: seq<Field>, H: Hasher, s: Store, w: Ties, y: Path, k: Bytes, x: Slice, q: Path)
    requires Tied(fs, H, s, w) && Shows(s, y, k, x) && Lends(s, q, x)
    ensures LeafOf(s, q, k) && k != [] && Placed(fs, H, SavedTree(s), [])
  {
  }

  lemma SavedStained(fs: seq<Field>, H: Hasher, s: Store, w: Ties, k: Bytes, x: Slice, change: seq<Option<Bytes>>)
    requires Inv(s) && [] in s.orig && Tied(fs, H, s, w) && LeafSlice(s, k, x) && k != []
    ensures Build(SavedWith(s, x, change), []) == if k in w.risky then Stain(SavedTree(s), H(k), change)
      else SavedTree(s)
  {
    hide Inv, Tied, Shows, LeafSlice, Lends, InTree, Placed, Laid, KeyedLeaf, LeafOf, SavedWith, Saved;
    var y := SliceShows(s, k, x);
    TiedTells(fs, H, s, w, y, k, x);
    if q :| Lends(s, q, x) && !InTree(s, q) {
      KeyedLeafOf(fs, H, s, w, y, k, x, q);
      LenderLeaf(s, q, k, x);
      SavedLaid(s);
      SavedRoot(s);
      LeafPlaced(fs, H, Saved(s), q, k);
      LeafIn(Saved(s), q, k);
      SavedWithOne(s, q, x, change);
      StainBuild(Saved(s), SavedWith(s, x, change), [], q, H(k), change);
      assert H(k)[0..] == H(k);
    } else {
      SavedWithNone(s, x, change);
    }
  }

  lemma LeafIn(m: Table, p: Path, k: Bytes)
    requires KeyedLeaf(m, p, k)
    ensures p in m && Childless(m, p)
  {
  }

  lemma SavedRoot(s: Store)
    requires Inv(s) && [] in s.orig
    ensures [] in Saved(s)
  {
  }

  // ---- calls ----

  /** Whatever was known about the ties before a call tells what they are after it, and what a
      rollback would then bring back. */
  ghost predicate Accounts(fs: seq<Field>, H: Hasher, op: Op, s: Store, s': Store) {
    forall w :: Tied(fs, H, s, w) ==>
      && Tied(fs, H, s', Retie(fs, H, op, TreeNow(s), w))
      && SavedTree(s') == Restain(fs, H, op, TreeNow(s), w, SavedTree(s))
  }

  lemma FailedAccounts(fs: seq<Field>, H: Hasher, op: Op, s: Store)
    requires Apply(fs, H, true, op, TreeNow(s)).Err?
    ensures Accounts(fs, H, op, s, s)
  {
  }

  lemma CalledKeyed(fs: seq<Field>, H: Hasher, scope: Scope, op: Op, s: Store, s': Store, w: Ties)
    requires Called(fs, H, scope, op, s, s') && Tied(fs, H, s, w)
    ensures Keyed(s') && [] in s.orig && Inv(s) && Untouched(s', [])
  {
    KeyedOn(s, s', H(op.key), if op.Add? then op.key else []);
  }

  lemma AddAccounts(fs: seq<Field>, H: Hasher, scope: Scope, op: Op, s: Store, s': Store)
    requires Called(fs, H, scope, op, s, s') && op.Add? && Saved(s') == Saved(s)
    ensures Accounts(fs, H, op, s, s')
  {
    hide Called, Tells, Retie, Keyed, Saved;
    forall w | Tied(fs, H, s, w) ensures Tied(fs, H, s', Retie(fs, H, op, TreeNow(s), w)) {
      CalledKeyed(fs, H, scope, op, s, s', w);
      forall z, k, x | x in s'.slices && Shows(s', z, k, x) ensures Tells(s', Retie(fs, H, op, TreeNow(s), w), k, x) {
        TellsAdd(fs, H, scope, op, s, s', w, z, k, x);
      }
    }
  }

  lemma RemoveAccounts(fs: seq<Field>, H: Hasher, scope: Scope, op: Op, s: Store, s': Store)
    requires Called(fs, H, scope, op, s, s') && op.Remove? && Saved(s') == Saved(s)
    ensures Accounts(fs, H, op, s, s')
  {
    hide Called, Tells, Retie, Keyed, Saved;
    forall w | Tied(fs, H, s, w) ensures Tied(fs, H, s', Retie(fs, H, op, TreeNow(s), w)) {
      CalledKeyed(fs, H, scope, op, s, s', w);
      forall z, k, x | x in s'.slices && Shows(s', z, k, x) ensures Tells(s', Retie(fs, H, op, TreeNow(s), w), k, x) {
        TellsRemove(fs, H, scope, op, s, s', w, z, k, x);
      }
    }
  }

  lemma SetAccounts(fs: seq<Field>, H: Hasher, scope: Scope, op: Op, s: Store, s': Store, x0: Slice)
    requires Called(fs, H, scope, op, s, s') && op.Set? && Saved(s') == SavedWith(s, x0, op.change)
    requires LeafSlice(s, op.key, x0) && Owned(s', x0)
    ensures Accounts(fs, H, op, s, s')
  {
    forall w | Tied(fs, H, s, w)
      ensures Tied(fs, H, s', Retie(fs, H, op, TreeNow(s), w))
        && SavedTree(s') == Restain(fs, H, op, TreeNow(s), w, SavedTree(s))
    {
      SetTied(fs, H, scope, op, s, s', w, x0);
    }
  }

  lemma SetTied(fs: seq<Field>, H: Hasher, scope: Scope, op: Op, s: Store, s': Store, w: Ties, x0: Slice)
    requires Called(fs, H, scope, op, s, s') && op.Set? && Saved(s') == SavedWith(s, x0, op.change)
    requires LeafSlice(s, op.key, x0) && Owned(s', x0) && Tied(fs, H, s, w)
    ensures Tied(fs, H, s', Retie(fs, H, op, TreeNow(s), w))
      && SavedTree(s') == Restain(fs, H, op, TreeNow(s), w, SavedTree(s))
  {
    hide Tells, Retie, Keyed, Saved, SavedWith, Inv, Proper, Lineage, Extends, LeafSlice, Owned, Stain, Placed, Shows;
    CalledKeyed(fs, H, scope, op, s, s', w);
    SavedStained(fs, H, s, w, op.key, x0, op.change);
    StainPlaced(fs, H, SavedTree(s), [], H(op.key), op.change);
    forall z, k, x | x in s'.slices && Shows(s', z, k, x) ensures Tells(s', Retie(fs, H, op, TreeNow(s), w), k, x) {
      TellsSet(fs, H, scope, op, s, s', w, x0, z, k, x);
    }
  }

  /** What a call returned. */
  ghost predicate Returned(fs: seq<Field>, H: Hasher, lazy: bool, op: Op, s: Store, s': Store, err: Option<Error>) {
    && (err.Some? ==> s' == s)
    && Apply(fs, H, lazy, op, TreeNow(s)) == if err == None then Ok(TreeNow(s')) else Err(err.value)
  }

  lemma InsertDone(fs: seq<Field>, H: Hasher, scope: Scope, lazy: bool, op: Op, s: Store, s': Store,
      err: Option<Error>)
    requires Proper(fs, H, scope, lazy, s) && Proper(fs, H, scope, lazy, s') && OpOk(fs, op) && op.Add?
      && op.key != []
    requires Returned(fs, H, lazy, op, s, s', err) && Saved(s') == Saved(s)
    requires err == None ==> Lineage(s, s', H(op.key), op.key) && Extends(s.nodes, s'.nodes)
    ensures lazy ==> Accounts(fs, H, op, s, s')
  {
    hide Proper, Saved, Lineage, Extends, Accounts, Apply, TreeNow;
    if lazy && err == None {
      AddAccounts(fs, H, scope, op, s, s');
    } else if lazy {
      FailedAccounts(fs, H, op, s);
    }
  }

  lemma ChangeDone(fs: seq<Field>, H: Hasher, scope: Scope, lazy: bool, op: Op, s: Store, s': Store,
      err: Option<Error>, x: Slice)
    requires Proper(fs, H, scope, lazy, s) && Proper(fs, H, scope, lazy, s') && OpOk(fs, op) && op.Set?
    requires Returned(fs, H, lazy, op, s, s', err)
    requires err == None ==> Lineage(s, s', H(op.key), []) && Extends(s.nodes, s'.nodes) && Extends(s'.nodes, s.nodes)
    requires err == None ==> LeafSlice(s, op.key, x) && Owned(s', x) && Saved(s') == SavedWith(s, x, op.change)
    ensures lazy && op.key != [] ==> Accounts(fs, H, op, s, s')
  {
    hide Proper, Saved, SavedWith, Lineage, Extends, Accounts, Apply, TreeNow, LeafSlice, Owned;
    if lazy && op.key != [] && err == None {
      SetAccounts(fs, H, scope, op, s, s', x);
    } else if lazy && op.key != [] {
      FailedAccounts(fs, H, op, s);
    }
  }

  lemma DeleteDone(fs: seq<Field>, H: Hasher, scope: Scope, lazy: bool, op: Op, s: Store, s': Store,
      err: Option<Error>)
    requires Proper(fs, H, scope, lazy, s) && Proper(fs, H, scope, lazy, s') && OpOk(fs, op) && op.Remove?
    requires Returned(fs, H, lazy, op, s, s', err) && Saved(s') == Saved(s)
    requires err == None ==> Lineage(s, s', H(op.key), []) && Extends(s'.nodes, s.nodes)
    ensures lazy && op.key != [] ==> Accounts(fs, H, op, s, s')
  {
    hide Proper, Saved, Lineage, Extends, Accounts, Apply, TreeNow;
    if lazy && op.key != [] && err == None {
      RemoveAccounts(fs, H, scope, op, s, s');
    } else if lazy && op.key != [] {
      FailedAccounts(fs, H, op, s);
    }
  }

  // ---- where a transaction begins ----

  /** Every leaf sits in the node in which it was found. */
  lemma BeginTied(fs: seq<Field>, H: Hasher, scope: Scope, s: Store, s': Store)
    requires Proper(fs, H, scope, true, s') && s' == s.(orig := s.nodes) && Still(s)
      && SavedTree(s') == Plain(TreeNow(s'))
    ensures Tied(fs, H, s', NO_TIES)
  {
    PlainKeeps(fs, H, TreeNow(s'), []);
    assert Untouched(s', []);
    forall p, k, x, q | x in s'.slices && Shows(s', p, k, x) && Lends(s', q, x)
      ensures LeafOf(s', q, k) && InTree(s', q) {
      assert InTree(s', q);
      LenderShown(s', p, k, x, q);
    }
    forall p, k, x | x in s'.slices && Shows(s', p, k, x) ensures Tells(s', NO_TIES, k, x) {
      assert Lends(s', p, x) && InTree(s', p);
    }
  }
}
