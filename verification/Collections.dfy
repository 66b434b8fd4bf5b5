/** The collection as an object: nodes are linked both ways and changed in place. */
module Collections {
  import opened Fields
  import opened Trie
  import opened Mapping
  import opened Canonical
  import opened Lazy
  import opened Layout
  import opened Store
  import opened StoreShape
  import opened StoreMarks
  import opened StoreSteps
  import opened StoreFlags
  import opened StoreWalk
  import opened StoreDescent
  import opened StoreSweep
  import opened StoreEnd
  import opened StoreTies
  import opened Undo
  import opened Upkeep
  import opened Effects
  import opened Scopes
  import ByteSlice

  datatype Turn = Filled | Refused | Further

  class Collection {
    const root: Node
    const fields: seq<Field>
    const H: Hasher
    var scope: Scope
    var autoCollect: bool
    var ongoing: bool
    var id: nat

    // the node at the end of each path; the same when the transaction began
    ghost var nodes: map<Path, Node>
    ghost var orig: map<Path, Node>
    // every node and every slice that is or was part of the tree
    ghost var world: set<Node>
    ghost var arrays: set<Slice>

    ghost function S(): Store
      reads `nodes, `orig, `world, `arrays, world, arrays
    {
      Store(root, nodes, orig, map n | n in world :: n.Snapshot(), map a | a in arrays :: a[..])
    }

    /** A snapshot shows every node as it is. */
    lemma Shown(n: Node)
      requires n in S().cells
      ensures n in world && CellAt(S(), n, n.Snapshot())
    {
    }

    lemma ShownSlice(a: Slice)
      requires a in S().slices
      ensures a in arrays && S().slices[a] == a[..]
    {
    }

    lemma MapsShown()
      ensures S().root == root && S().nodes == nodes && S().orig == orig
    {
    }

    /** Bookkeeping: the nodes that a rollback goes back to. */
    ghost method MoveOrig(to: map<Path, Node>)
      modifies this`orig
      ensures orig == to && S() == old(S()).(orig := to)
    {
      orig := to;
    }

    ghost method MoveBack()
      modifies this`orig, this`nodes
      ensures nodes == old(orig) && orig == map[] && S() == old(S()).(nodes := old(orig), orig := map[])
    {
      nodes := orig;
      orig := map[];
    }

    lemma RootShown(n: Node, p: Path)
      requires Holds(S(), n, p)
      ensures root in world && Holds(S(), root, []) && S().root == root && (root.known ==> RootKnown(S()))
    {
      assert Linked(S(), []);
    }

    constructor Bare(fields: seq<Field>, H: Hasher, scope: Scope)
      ensures fresh(root) && root.Snapshot() == Cell(false, Zero, [], root.values, false, false, None, null, null,
        null)
      ensures this.fields == fields && this.H == H && this.scope == scope && autoCollect && !ongoing && id == 0
      ensures fresh(root.values) && root.values[..] == []
      ensures nodes == map[[] := root] && orig == map[] && world == {root} && arrays == {root.values}
    {
      var r := new Node();
      root := r;
      this.fields, this.H, this.scope := fields, H, scope;
      autoCollect, ongoing, id := true, false, 0;
      nodes, orig, world, arrays := map[[] := r], map[], {r}, {r.values};
    }

    // ---- what a change to a single node means for the snapshot ----

    /** Only node `n` was changed, and slices were only added. */
    twostate predicate Touches(n: Node)
      reads this, world, arrays
    {
      && n in old(world)
      && orig == old(orig) && world == old(world) && old(arrays) <= arrays
      && (forall m :: m in world && m != n ==> m.Snapshot() == old(m.Snapshot()))
      && (forall a :: a in old(arrays) ==> a[..] == old(a[..]))
    }

    twostate predicate Changed(n: Node)
      reads this, world, arrays, n
    {
      && S().root == old(S()).root && S().orig == old(S()).orig
      && S().cells == old(S()).cells[n := n.Snapshot()]
      && forall a :: a in old(S()).slices ==> a in S().slices && S().slices[a] == old(S()).slices[a]
    }

    twostate lemma TouchesStore(n: Node)
      requires Touches(n)
      ensures Changed(n)
    {
    }

    // ---- backup ----

    method BackUpRaw(n: Node, ghost p: Path)
      requires p in nodes && n == nodes[p] && n in world && n.values in arrays && n.backup == None
      modifies this`arrays, n`backup
      ensures OneCell(old(S()), p, n.Snapshot(), S()) && nodes == old(nodes)
      ensures old(S()).cells[n] == old(n.Snapshot()) && n.Snapshot() == old(n.Snapshot()).(backup := n.backup)
        && n.backup.Some?
      ensures
        var b := n.backup.value;
        && b == Backup(n.known, n.lbl, n.key, b.values, n.inconsistent, n.parent, n.left, n.right)
        && b.values !in old(S()).slices && b.values in S().slices && S().slices[b.values] == old(S()).slices[n.values]
      ensures old(arrays) <= arrays && fresh(arrays - old(arrays))
    {
      n.BackUp();
      arrays := arrays + {n.backup.value.values};
      TouchesStore(n);
    }

    /** backup, if the node has none yet */
    method BackUp(n: Node, ghost p: Path)
      requires Holds(S(), n, p) && p != []
      modifies this`arrays, n`backup
      ensures Holds(S(), n, p) && old(arrays) <= arrays && fresh(arrays - old(arrays))
      ensures n.backup.Some? && Stirs(old(S()), S(), {n}) && FreeAt(S(), p)
      ensures AtMostBackup(old(S()), n, p, n.Snapshot(), S())
      ensures Now(S()) == old(Now(S())) && Saved(S()) == old(Saved(S())) && Lineage(old(S()), S(), p, [])
      ensures FlagsStay(old(S()), S(), p)
    {
      hide OneCell, Now, Saved, Lineage, FlagsStay;
      LineageSame(S(), p, []);
      FlagsStaySame(S(), p);
      if n.backup == None {
        hide Holds, Stirs, FreeAt;
        ghost var s, o := S(), n.Snapshot();
        HoldsCell(s, n, p);
        BackUpRaw(n, p);
        BackupDone(s, n, p, o, n.Snapshot(), S());
        StepFlags(s, n, p, o, n.Snapshot(), S());
      }
    }

    // ---- a placeholder becomes a leaf, a leaf becomes a placeholder ----

    method FillRaw(n: Node, key: Bytes, raw: seq<Bytes>, ghost p: Path)
      requires p in nodes && n == nodes[p] && n in world && n.left == null && n.right == null && n.known
      modifies this`arrays, n`key, n`values, n`lbl, n`lent
      ensures OneCell(old(S()), p, n.Snapshot(), S()) && nodes == old(nodes)
      ensures old(S()).cells[n] == old(n.Snapshot()) && n.values !in old(S()).slices && S().slices[n.values] == raw
      ensures n.Snapshot() == old(n.Snapshot()).(key := key, values := n.values, lent := false,
        lbl := LeafLabel(key, raw))
      ensures old(arrays) <= arrays && fresh(arrays - old(arrays))
    {
      n.Fill(fields, key, raw);
      arrays := arrays + {n.values};
      TouchesStore(n);
    }

    /** Add on a placeholder: the node becomes the leaf of the key. */
    method Fill(n: Node, key: Bytes, raw: seq<Bytes>, ghost p: Path)
      requires Holds(S(), n, p) && FreeAt(S(), p) && n.left == null && n.known
      modifies this`arrays, n`key, n`values, n`lbl, n`lent
      ensures Holds(S(), n, p) && old(arrays) <= arrays && fresh(arrays - old(arrays))
      ensures Stirs(old(S()), S(), {}) && Saved(S()) == old(Saved(S())) && Lineage(old(S()), S(), p, key)
      ensures Now(S()) == Wrote(fields, Op.Add(key, raw), old(Now(S())), p) && FlagsStay(old(S()), S(), p)
    {
      hide Holds, OneCell, Now, Saved, Lineage, Stirs, FreeAt, Wrote, FlagsStay;
      ghost var s, o := S(), n.Snapshot();
      HoldsCell(s, n, p);
      FillRaw(n, key, raw, p);
      FillDone(fields, s, n, p, o, n.Snapshot(), S(), key, raw);
      StepFlags(s, n, p, o, n.Snapshot(), S());
    }

    method ClearRaw(n: Node, ghost p: Path)
      requires p in nodes && n == nodes[p] && n in world && n.left == null && n.right == null
      modifies this`arrays, n`known, n`key, n`values, n`left, n`right, n`lbl, n`lent
      ensures OneCell(old(S()), p, n.Snapshot(), S()) && nodes == old(nodes)
      ensures old(S()).cells[n] == old(n.Snapshot()) && n.values !in old(S()).slices
        && S().slices[n.values] == Placeholders(fields)
      ensures n.Snapshot() == old(n.Snapshot()).(known := true, key := [], values := n.values, lent := false,
        lbl := LeafLabel([], Placeholders(fields)))
      ensures old(arrays) <= arrays && fresh(arrays - old(arrays))
    {
      n.SetPlaceholder(fields);
      arrays := arrays + {n.values};
      TouchesStore(n);
    }

    /** setPlaceholder on a leaf of the tree */
    method Clear(n: Node, ghost p: Path)
      requires Holds(S(), n, p) && FreeAt(S(), p) && n.left == null
      modifies this`arrays, n`known, n`key, n`values, n`left, n`right, n`lbl, n`lent
      ensures Holds(S(), n, p) && old(arrays) <= arrays && fresh(arrays - old(arrays))
      ensures Stirs(old(S()), S(), {}) && Saved(S()) == old(Saved(S())) && Lineage(old(S()), S(), p, [])
      ensures Now(S()) == Wrote(fields, Op.Remove(old(n.key)), old(Now(S())), p) && n.known
      ensures FlagsStay(old(S()), S(), p)
    {
      hide Holds, OneCell, Now, Saved, Lineage, Stirs, FreeAt, Wrote, FlagsStay;
      ghost var s, o := S(), n.Snapshot();
      HoldsCell(s, n, p);
      ClearRaw(n, p);
      ClearDone(fields, s, n, p, o, n.Snapshot(), S(), o.key);
      StepFlags(s, n, p, o, n.Snapshot(), S());
    }

    // ---- a node is flagged, or relabelled ----

    method FlagRaw(n: Node, ghost p: Path)
      requires p in nodes && n == nodes[p] && n in world && n.values in arrays
      modifies n`inconsistent
      ensures OneCell(old(S()), p, n.Snapshot(), S()) && nodes == old(nodes)
      ensures old(S()).cells[n] == old(n.Snapshot()) && n.Snapshot() == old(n.Snapshot()).(inconsistent := true)
    {
      n.inconsistent := true;
      TouchesStore(n);
    }

    method Flag(n: Node, ghost p: Path)
      requires Holds(S(), n, p)
      modifies n`inconsistent
      ensures Holds(S(), n, p) && n.inconsistent
      ensures Stirs(old(S()), S(), {n}) && Saved(S()) == old(Saved(S())) && Lineage(old(S()), S(), p, [])
      ensures Now(S()) == Flagged(old(Now(S())), p) && FlagsOne(old(S()), S(), p)
    {
      hide Holds, OneCell, Now, Saved, Lineage, Stirs, Flagged, FlagsOne;
      ghost var s, o := S(), n.Snapshot();
      HoldsCell(s, n, p);
      FlagRaw(n, p);
      FlagDone(s, n, p, o, n.Snapshot(), S());
      FlagFlags(s, n, p, o, n.Snapshot(), S());
    }

    method RelabelRaw(n: Node, ghost p: Path)
      requires p in nodes && n == nodes[p] && n in world && n.known
      requires n.left != null && n.right != null && n.left.known && n.right.known
      requires n.left in world && n.right in world && n.left.values in arrays && n.right.values in arrays
      requires ValuesOk(fields, S().slices[n.left.values]) && ValuesOk(fields, S().slices[n.right.values])
      modifies this`arrays, n`values, n`lbl, n`lent
      ensures OneCell(old(S()), p, n.Snapshot(), S()) && nodes == old(nodes)
      ensures old(S()).cells[n] == old(n.Snapshot()) && n.values !in old(S()).slices
      ensures
        var vs := ParentValues(fields, old(S().slices[n.left.values]), old(S().slices[n.right.values]));
        && S().slices[n.values] == vs
        && n.Snapshot() == old(n.Snapshot()).(values := n.values, lent := false,
           lbl := InnerLabel(vs, old(n.left.lbl), old(n.right.lbl)))
      ensures old(arrays) <= arrays && fresh(arrays - old(arrays))
    {
      assert n.left.values[..] == S().slices[n.left.values] && n.right.values[..] == S().slices[n.right.values];
      var ok := n.Update(fields);
      arrays := arrays + {n.values};
      TouchesStore(n);
    }

    /** update on an internal node whose children are known */
    method Relabel(n: Node, ghost p: Path)
      requires Holds(S(), n, p) && FreeAt(S(), p) && CanRelabelAt(fields, S(), p)
      modifies this`arrays, n`values, n`lbl, n`lent
      ensures Holds(S(), n, p) && !n.lent && old(arrays) <= arrays && fresh(arrays - old(arrays))
      ensures Stirs(old(S()), S(), {}) && Saved(S()) == old(Saved(S())) && Lineage(old(S()), S(), p, [])
      ensures Now(S()) == Relabelled(fields, old(Now(S())), p)
    {
      hide Holds, OneCell, Now, Saved, Lineage, Stirs, FreeAt, Relabelled, CanRelabelAt, Build;
      ghost var s, o := S(), n.Snapshot();
      HoldsCell(s, n, p);
      RelabelReady(fields, s, n, p, o);
      ghost var l, r := n.left.Snapshot(), n.right.Snapshot();
      RelabelRaw(n, p);
      RelabelDone(fields, s, n, p, o, l, r, n.Snapshot(), S());
    }

    // ---- the values of a leaf are overwritten ----

    method OverwriteNode(n: Node, change: seq<Option<Bytes>>)
      requires n in world && n.values in arrays && n.values.Length == |change| && n.known && n.left == null
        && n.right == null
      modifies n`lbl, n`values, n`lent, n.values
      ensures S().root == old(S()).root && S().orig == old(S()).orig
      ensures S().cells == old(S()).cells[n := n.Snapshot()]
      ensures S().slices == old(S()).slices[n.values := Overwrite(old(n.values[..]), change)]
      ensures n.Snapshot() == old(n.Snapshot()).(lbl := LeafLabel(n.key, Overwrite(old(n.values[..]), change)))
    {
      n.Overwrite(change);
      var ok := n.Update(fields);
    }

    /** Set on the leaf of the key: the slice of values is written in place. */
    method OverwriteLeaf(n: Node, change: seq<Option<Bytes>>, ghost p: Path)
      requires Holds(S(), n, p) && FreeAt(S(), p) && n.left == null && n.known && !n.lent
        && n.values.Length == |change|
      modifies n`lbl, n`values, n`lent, n.values
      ensures Holds(S(), n, p) && Stirs(old(S()), S(), {}) && n.values == old(n.values)
      ensures Now(S()) == Wrote(fields, Op.Set(n.key, change), old(Now(S())), p)
      ensures Owned(S(), n.values)
      ensures Saved(S()) == SavedWith(old(S()), n.values, change) && Lineage(old(S()), S(), p, [])
      ensures FlagsStay(old(S()), S(), p)
    {
      hide Holds, Now, Saved, Lineage, Stirs, FreeAt, Wrote, SavedWith, Owned, FlagsStay;
      ghost var s, o := S(), n.Snapshot();
      HoldsCell(s, n, p);
      OverwriteNode(n, change);
      OverwriteDone(fields, s, n, p, o, n.Snapshot(), change, S());
      OverwriteFlags(s, n, p, o, n.Snapshot(), Overwrite(s.slices[o.values], change), S());
      HoldsCell(S(), n, p);
      Shown(n);
      FreeOwns(S(), n, p, n.Snapshot());
    }

    // ---- a node takes over its one remaining child ----

    method LiftRaw(n: Node, ghost p: Path)
      requires p in nodes && n == nodes[p] && n in world
      requires n.left != null && n.right != null && n.left in world && n.right in world
      requires n.left.values in arrays && n.right.values in arrays
      modifies this`nodes, n`lbl, n`key, n`values, n`left, n`right, n`lent
      ensures OneCell(old(S()), p, n.Snapshot(), S()) && nodes == CutNodes(old(nodes), p)
      ensures old(S()).cells[n] == old(n.Snapshot())
      ensures
        var x := if old(n.left.IsPlaceholderNode()) then old(n.right.Snapshot()) else old(n.left.Snapshot());
        n.Snapshot() == old(n.Snapshot()).(lbl := x.lbl, key := x.key, values := x.values, left := null,
          right := null, lent := false)
    {
      n.Lift();
      nodes := CutNodes(nodes, p);
      TouchesStore(n);
    }

    /** A node takes over its one remaining child, and shares its slice of values with it. */
    method LiftChild(n: Node, ghost p: Path)
      requires Holds(S(), n, p) && FreeAt(S(), p) && CanLiftAt(S(), p)
      modifies this`nodes, n`lbl, n`key, n`values, n`left, n`right, n`lent
      ensures Holds(S(), n, p) && Saved(S()) == old(Saved(S())) && Lineage(old(S()), S(), p, [])
      ensures Cuts(old(S()), p, n.Snapshot(), S())
      ensures n.inconsistent == old(n.inconsistent) && n.backup == old(n.backup) && !n.lent
      ensures Extends(nodes, old(nodes))
      ensures Now(S()) == Lifted(old(Now(S())), p) && FlagsStay(old(S()), S(), p)
    {
      hide Holds, OneCell, Now, Saved, Lineage, Cuts, FreeAt, Lifted, CanLiftAt, Build, CutNodes, Extends, FlagsStay;
      ghost var s, o := S(), n.Snapshot();
      CutExtends(nodes, p);
      HoldsCell(s, n, p);
      LiftReady(s, n, p, o);
      ghost var l, r := n.left.Snapshot(), n.right.Snapshot();
      LiftRaw(n, p);
      LiftDone(s, n, p, o, l, r, n.Snapshot(), S());
      CutFlags(s, n, p, o, n.Snapshot(), S());
    }

    // ---- a leaf makes room for another key ----

    /** The snapshot after node `n` has got the new children `l` and `r`. */
    twostate predicate Branched(n: Node, new l: Node, new r: Node)
      reads this, world, arrays, n, l, r
    {
      && l != r && l !in old(world) && r !in old(world)
      && S().root == old(S()).root && S().orig == old(S()).orig
      && S().cells == old(S()).cells[l := l.Snapshot()][r := r.Snapshot()][n := n.Snapshot()]
      && forall a :: a in old(S()).slices ==> a in S().slices && S().slices[a] == old(S()).slices[a]
    }

    twostate lemma TouchesTree(n: Node, new l: Node, new r: Node)
      requires n in old(world) && l != r && l !in old(world) && r !in old(world)
      requires orig == old(orig) && world == old(world) + {l, r} && old(arrays) <= arrays
      requires forall m :: m in old(world) && m != n ==> m.Snapshot() == old(m.Snapshot())
      requires forall a :: a in old(arrays) ==> a[..] == old(a[..])
      ensures Branched(n, l, r)
    {
    }

    method SplitNode(n: Node, step: bool, ghost p: Path)
      requires n in world && n.values in arrays
      modifies this`arrays, this`world, this`nodes, n`key, n`left, n`right, n`lent
      ensures n.left != null && n.right != null && Branched(n, n.left, n.right)
      ensures nodes == old(nodes)[p + [false] := n.left][p + [true] := n.right]
      ensures n.Snapshot() == old(n.Snapshot()).(key := [], left := n.left, right := n.right, lent := true)
      ensures (if step then n.right
        else n.left).Snapshot() == Cell(true, n.lbl, old(n.key), n.values, false, false, None, n, null, null)
      ensures
        var other := if step then n.left else n.right;
        && other.Snapshot() == Cell(true, LeafLabel([], Placeholders(fields)), [], other.values, false, false, None,
           n, null, null)
        && other.values in arrays && other.values !in old(arrays) && other.values[..] == Placeholders(fields)
      ensures old(arrays) <= arrays && fresh(arrays - old(arrays))
      ensures fresh(world - old(world)) && world == old(world) + {n.left, n.right}
    {
      ghost var other := n.Split(fields, step);
      world := world + {n.left, n.right};
      arrays := arrays + {other.values};
      nodes := nodes[p + [false] := n.left][p + [true] := n.right];
      TouchesTree(n, n.left, n.right);
    }

    /** The loop body of Add for a leaf with another key. */
    method SplitLeaf(n: Node, step: bool, ghost p: Path)
      requires Holds(S(), n, p) && FreeAt(S(), p) && n.left == null && n.known && !n.lent && |p| < BITS
      modifies this`arrays, this`world, this`nodes, n`key, n`left, n`right, n`lent
      ensures Holds(S(), n, p) && Saved(S()) == old(Saved(S())) && Lineage(old(S()), S(), p, [])
        && ForksAt(old(S()), p, S())
      ensures old(arrays) <= arrays && fresh(arrays - old(arrays)) && old(world) <= world && fresh(world - old(world))
      ensures Extends(old(nodes), nodes)
      ensures Now(S()) == Parted(fields, old(Now(S())), p, step) && S().orig == old(S()).orig
      ensures FlagsStay(old(S()), S(), p)
    {
      hide Holds, Now, Saved, Lineage, ForksAt, FreeAt, Parted, Build, FlagsStay;
      ghost var s, o := S(), n.Snapshot();
      HoldsCell(s, n, p);
      MapsShown();
      SplitNode(n, step, p);
      MapsShown();
      SplitDone(fields, s, n, p, step, o, n.left, n.left.Snapshot(), n.right, n.right.Snapshot(), S());
      ForksExtend(s, p, S());
      SplitFlags(s, n, p, o, n.left, n.left.Snapshot(), n.right, n.right.Snapshot(), S());
    }

    // ---- walking down and up ----

    /** One turn of a descent: check that both children are known, and move to one of them. */
    method StepDown(n: Node, step: bool, ghost op: Op, ghost d: nat, ghost out: Result)
        returns (ok: bool, child: Node)
      requires d < BITS && step == H(op.key)[d]
      requires Holds(S(), n, H(op.key)[..d]) && Descending(fields, H, ongoing, op, S(), d, out)
      ensures !ok ==> out == Err(UnknownSubtree) && !JustSplit(Build(Now(S()), H(op.key)[..d]), op.key)
      ensures ok ==> Holds(S(), child, H(op.key)[..d + 1]) && AtChild(fields, H, ongoing, op, S(), d + 1, out)
      ensures ok && JustSplit(Build(Now(S()), H(op.key)[..d]), op.key) ==> child.left == null && child.key != op.key
    {
      hide Holds, Descending, AtChild, JustSplit, Now, Build;
      ghost var s := S();
      HoldsCell(s, n, H(op.key)[..d]);
      DescendLinks(fields, H, ongoing, op, s, n, n.Snapshot(), d, out);
      child := n;
      ok := n.left.known && n.right.known;
      if ok {
        if step {
          child := n.right;
        } else {
          child := n.left;
        }
        DescendOn(fields, H, ongoing, op, s, n, n.Snapshot(), child, d, out);
      } else {
        DescendBlocked(fields, H, ongoing, op, s, n, n.Snapshot(), d, out);
      }
    }

    // ---- at the leaf ----

    lemma LeafShown(n: Node, p: Path)
      requires Holds(S(), n, p) && n.left == null
      ensures LeafHeld(S(), p)
    {
      hide CellAt, Holds, LeafHeld;
      HoldsCell(S(), n, p);
      Shown(n);
      LeafHolds(S(), n, p, n.Snapshot());
    }

    /** In a transaction, a leaf is backed up before it is changed. */
    method Secure(n: Node, ghost op: Op, ghost d: nat, ghost out: Result)
      requires d <= BITS && Holds(S(), n, H(op.key)[..d]) && AtChild(fields, H, ongoing, op, S(), d, out)
      modifies this`arrays, n`backup
      ensures Holds(S(), n, H(op.key)[..d]) && AtChild(fields, H, ongoing, op, S(), d, out)
        && FreeAt(S(), H(op.key)[..d])
      ensures Now(S()) == old(Now(S())) && Saved(S()) == old(Saved(S())) && Lineage(old(S()), S(), H(op.key), [])
      ensures AtMostBackup(old(S()), n, H(op.key)[..d], n.Snapshot(), S())
      ensures FlagsStay(old(S()), S(), H(op.key)[..d])
      ensures old(arrays) <= arrays && fresh(arrays - old(arrays))
    {
      hide AtChild, Holds, Now, Saved, Lineage, FreeAt, Stirs, FlagsStay;
      ghost var s := S();
      FlagsStaySame(s, H(op.key)[..d]);
      LineageSame(s, H(op.key), []);
      ChildDeep(fields, H, ongoing, op, s, d, out);
      if ongoing {
        BackUp(n, H(op.key)[..d]);
        LineageStep(s, s, S(), H(op.key), d, [], []);
        SecureDone(fields, H, op, s, n, S(), d, out);
      } else {
        FreeDone(fields, H, op, s, d, out);
      }
    }

    /** Add on a placeholder */
    method PlaceLeaf(n: Node, ghost op: Op, ghost d: nat, ghost out: Result, key: Bytes, raw: seq<Bytes>)
      requires op == Op.Add(key, raw) && d <= BITS && Holds(S(), n, H(op.key)[..d])
      requires AtChild(fields, H, ongoing, op, S(), d, out) && n.left == null && n.known && n.key == []
      modifies this`arrays, n`backup, n`key, n`values, n`lbl, n`lent
      ensures Holds(S(), n, H(op.key)[..d]) && Climbing(fields, ongoing, op, S(), H(op.key), d, out)
      ensures Saved(S()) == old(Saved(S())) && Lineage(old(S()), S(), H(op.key), op.key) && old(arrays) <= arrays
        && fresh(arrays - old(arrays))
      ensures old(FlagsClosed(S())) ==> FlagsClosed(S())
    {
      hide S, CellAt, Holds, AtChild, Climbing, Now, Saved, Lineage, FreeAt, Stirs, Wrote, AtMostBackup, FlagsStay,
        FlagsClosed;
      ghost var s0, p := S(), H(op.key)[..d];
      LeafShown(n, p);
      Secure(n, op, d, out);
      LineageWiden(s0, S(), H(op.key), [], H(op.key), op.key);
      ghost var s := S();
      HoldsCell(s, n, p);
      Shown(n);
      ghost var c := n.Snapshot();
      Fill(n, key, raw, p);
      LineageStep(s0, s, S(), H(op.key), d, key, op.key);
      LeafFlagsKept(s0, s, S(), p);
      HitDone(fields, H, ongoing, op, s, n, c, S(), d, out);
    }

    /** Add on a leaf with another key */
    method MakeRoom(n: Node, step: bool, ghost op: Op, ghost d: nat, ghost out: Result)
      requires op.Add? && op.key != [] && d < BITS && Holds(S(), n, H(op.key)[..d])
      requires AtChild(fields, H, ongoing, op, S(), d, out) && n.left == null && n.known && !n.lent
      requires n.key != [] && n.key != op.key && step == H(n.key)[d]
      modifies this`arrays, this`world, this`nodes, n`backup, n`key, n`left, n`right, n`lent
      ensures Holds(S(), n, H(op.key)[..d]) && Descending(fields, H, ongoing, op, S(), d, out)
      ensures JustSplit(Build(Now(S()), H(op.key)[..d]), op.key) && Saved(S()) == old(Saved(S()))
        && Lineage(old(S()), S(), H(op.key), [])
      ensures old(arrays) <= arrays && fresh(arrays - old(arrays)) && old(world) <= world
        && fresh(world - old(world)) && Extends(old(nodes), nodes)
      ensures old(FlagsClosed(S())) ==> FlagsClosed(S())
    {
      hide S, CellAt, Holds, AtChild, Descending, Now, Saved, Lineage, FreeAt, ForksAt, Parted, JustSplit, Build,
        AtMostBackup, FlagsStay, FlagsClosed;
      ghost var s0, p := S(), H(op.key)[..d];
      LeafShown(n, p);
      Secure(n, op, d, out);
      ghost var s := S();
      HoldsCell(s, n, p);
      Shown(n);
      ghost var c := n.Snapshot();
      SplitLeaf(n, step, p);
      LineageStep(s0, s, S(), H(op.key), d, [], []);
      LeafFlagsKept(s0, s, S(), p);
      SplitLeafDone(fields, H, ongoing, op, s, n, c, step, S(), d, out);
    }

    /** Set on the leaf of the key */
    method Rewrite(n: Node, ghost op: Op, ghost d: nat, ghost out: Result, change: seq<Option<Bytes>>)
      requires op == Op.Set(n.key, change) && d <= BITS && Holds(S(), n, H(op.key)[..d])
      requires AtChild(fields, H, ongoing, op, S(), d, out) && n.left == null && n.known && !n.lent
        && n.values.Length == |change|
      modifies this`arrays, n`backup, n`lbl, n`values, n`lent, n.values
      ensures Holds(S(), n, H(op.key)[..d]) && Climbing(fields, ongoing, op, S(), H(op.key), d, out)
      ensures Saved(S()) == SavedWith(old(S()), n.values, change) && n.values == old(n.values)
        && Lineage(old(S()), S(), H(op.key), [])
      ensures Owned(S(), n.values) && (old(FlagsClosed(S())) ==> FlagsClosed(S()))
      ensures old(arrays) <= arrays && fresh(arrays - old(arrays))
    {
      hide S, CellAt, Holds, AtChild, Climbing, Now, Saved, Lineage, SavedWith, Owned, FreeAt, Stirs, Wrote,
        AtMostBackup, FlagsStay, FlagsClosed;
      ghost var r, p := S(), H(op.key)[..d];
      LeafShown(n, p);
      Secure(n, op, d, out);
      ghost var s, c := S(), n.Snapshot();
      HoldsCell(s, n, p);
      Shown(n);
      BackupOverwrite(r, n, p, c, s, change);
      OverwriteLeaf(n, change, p);
      LineageStep(r, s, S(), H(op.key), d, [], []);
      LeafFlagsKept(r, s, S(), p);
      HitDone(fields, H, ongoing, op, s, n, c, S(), d, out);
    }

    /** Remove on the leaf of the key */
    method Vacate(n: Node, ghost op: Op, ghost d: nat, ghost out: Result)
      requires op == Op.Remove(n.key) && d <= BITS && Holds(S(), n, H(op.key)[..d])
      requires AtChild(fields, H, ongoing, op, S(), d, out) && n.left == null
      modifies this`arrays, n`known, n`backup, n`key, n`values, n`left, n`right, n`lbl, n`lent
      ensures Holds(S(), n, H(op.key)[..d]) && Climbing(fields, ongoing, op, S(), H(op.key), d, out) && n.known
      ensures Saved(S()) == old(Saved(S())) && Lineage(old(S()), S(), H(op.key), []) && old(arrays) <= arrays
        && fresh(arrays - old(arrays))
      ensures old(FlagsClosed(S())) ==> FlagsClosed(S())
    {
      hide S, CellAt, Holds, AtChild, Climbing, Now, Saved, Lineage, FreeAt, Stirs, Wrote, AtMostBackup, FlagsStay,
        FlagsClosed;
      ghost var s0, p := S(), H(op.key)[..d];
      LeafShown(n, p);
      Secure(n, op, d, out);
      ghost var s := S();
      HoldsCell(s, n, p);
      Shown(n);
      ghost var c := n.Snapshot();
      Clear(n, p);
      LineageStep(s0, s, S(), H(op.key), d, [], []);
      LeafFlagsKept(s0, s, S(), p);
      HitDone(fields, H, ongoing, op, s, n, c, S(), d, out);
    }

    // ---- the way back ----

    /** One turn of the way back: the node is flagged in a transaction, and relabelled otherwise. */
    method Mark(n: Node, ghost op: Op, ghost d: nat, ghost out: Result)
      requires 0 < d <= BITS && Holds(S(), n, H(op.key)[..d - 1]) && n.known
      requires Climbing(fields, ongoing, op, S(), H(op.key), d, out) && !Lifts(op, Now(S()), H(op.key)[..d - 1])
      modifies this`arrays, n`inconsistent, n`values, n`lbl, n`lent
      ensures Holds(S(), n, H(op.key)[..d - 1]) && Climbing(fields, ongoing, op, S(), H(op.key), d - 1, out)
      ensures Saved(S()) == old(Saved(S())) && Lineage(old(S()), S(), H(op.key), []) && old(arrays) <= arrays
        && fresh(arrays - old(arrays))
      ensures ongoing && old(FlagsBelow(S(), H(op.key), d)) ==> FlagsBelow(S(), H(op.key), d - 1)
    {
      hide S, CellAt, Holds, Climbing, Lifts, Now, Saved, Lineage, FreeAt, Stirs, Flagged, Relabelled, CanRelabelAt,
        FlagsOne, FlagsBelow;
      ghost var s, p := S(), H(op.key)[..d - 1];
      LineageSame(s, H(op.key), []);
      HoldsCell(s, n, p);
      Shown(n);
      if ongoing {
        Flag(n, p);
        LineageStep(s, s, S(), H(op.key), d - 1, [], []);
        HoldsCell(S(), n, p);
        Shown(n);
        FlagReturn(fields, op, s, n, S(), H(op.key), d, out);
        MarkDone(fields, true, op, s, n, S(), H(op.key), d, out);
      } else {
        ReturnCanRelabel(fields, op, s, n, H(op.key), d, out);
        Relabel(n, p);
        LineageStep(s, s, S(), H(op.key), d - 1, [], []);
        HoldsCell(S(), n, p);
        Shown(n);
        RelabelReturn(fields, op, s, n, S(), H(op.key), d, out);
      }
    }

    lemma ReturnShown(n: Node, op: Op, d: nat, out: Result)
      requires d <= BITS && Holds(S(), n, H(op.key)[..d]) && Climbing(fields, ongoing, op, S(), H(op.key), d, out)
      requires root.known
      ensures n in world && (n.parent == null <==> d == 0)
      ensures n.parent != null ==> n.parent in world && n.parent.known && Holds(S(), n.parent, H(op.key)[..d - 1])
      ensures n.parent != null && !op.Remove? ==> !Lifts(op, Now(S()), H(op.key)[..d - 1])
    {
      hide CellAt, Holds, Climbing, Now, RootKnown;
      HoldsCell(S(), n, H(op.key)[..d]);
      Shown(n);
      RootShown(n, H(op.key)[..d]);
      ReturnParent(fields, ongoing, op, S(), n, n.Snapshot(), H(op.key), d, out);
    }

    /** The loop at the end of Add and Set. */
    method Ascend(n: Node, ghost op: Op, ghost d: nat, ghost out: Result)
      requires d <= BITS && Holds(S(), n, H(op.key)[..d]) && Climbing(fields, ongoing, op, S(), H(op.key), d, out)
      requires !op.Remove? && root.known
      modifies this`arrays, world
      ensures Climbing(fields, ongoing, op, S(), H(op.key), 0, out) && root.known
      ensures Saved(S()) == old(Saved(S())) && Lineage(old(S()), S(), H(op.key), []) && old(arrays) <= arrays
        && fresh(arrays - old(arrays))
      ensures ongoing && old(FlagsClosed(S())) ==> FlagsClosed(S())
    {
      hide S, Holds, Climbing, Now, Saved, Lineage, Lifts, FlagsClosed, FlagsBelow;
      ghost var s := S();
      LineageSame(s, H(op.key), []);
      FlagsFrom(s, H(op.key), d);
      var cursor: Node := n;
      ghost var k: nat := d;
      while true
        invariant k <= d && Holds(S(), cursor, H(op.key)[..k])
          && Climbing(fields, ongoing, op, S(), H(op.key), k, out)
        invariant root.known && Saved(S()) == old(Saved(S())) && Lineage(old(S()), S(), H(op.key), [])
        invariant ongoing && FlagsClosed(s) ==> FlagsBelow(S(), H(op.key), k)
        invariant old(arrays) <= arrays && fresh(arrays - old(arrays))
        decreases k
      {
        ReturnShown(cursor, op, k, out);
        if cursor.parent == null {
          FlagsOver(S(), H(op.key));
          break;
        }
        cursor := cursor.parent;
        k := k - 1;
        ghost var s1 := S();
        Mark(cursor, op, k + 1, out);
        LineageTrans(s, s1, S(), H(op.key), []);
      }
    }

    // ---- the manipulators, from the root and back ----

    lemma StartShown(op: Op)
      requires Proper(fields, H, scope, ongoing, S()) && OpOk(fields, op)
      requires op.Add? ==> op.key != [] && Apart(H, Stored(TreeNow(S())), op.key)
      ensures root in world
      ensures
        if root.known then
          && Descending(fields, H, ongoing, op, S(), 0, Apply(fields, H, ongoing, op, TreeNow(S())))
          && Holds(S(), root, H(op.key)[..0]) && RootKnown(S())
        else Apply(fields, H, ongoing, op, TreeNow(S())) == Err(UnknownSubtree)
    {
      hide Proper, Descending, Apply, TreeNow;
      ProperRoot(fields, H, scope, ongoing, S());
      Shown(root);
      if root.known {
        EditStart(fields, H, scope, ongoing, op, S());
      } else {
        EditUnknown(fields, H, scope, ongoing, op, S());
      }
    }

    lemma CursorShown(n: Node, op: Op, d: nat, out: Result)
      requires d <= BITS && Holds(S(), n, H(op.key)[..d]) && Descending(fields, H, ongoing, op, S(), d, out)
      ensures n in world && d < BITS
    {
      hide CellAt, Descending, Holds;
      HoldsCell(S(), n, H(op.key)[..d]);
      Shown(n);
      DescendLinks(fields, H, ongoing, op, S(), n, n.Snapshot(), d, out);
    }

    lemma ChildShown(n: Node, op: Op, d: nat, out: Result)
      requires d <= BITS && Holds(S(), n, H(op.key)[..d]) && AtChild(fields, H, ongoing, op, S(), d, out)
      ensures n in world && n.known
      ensures n.left == null ==> !n.lent && n.values in arrays && n.values.Length == |fields|
      ensures n.left == null && op.Add? && n.key != [] && n.key != op.key ==> d < BITS
      ensures n.left == null && n.key == op.key && op.Add? && op.key != [] ==> out == Err(KeyCollision)
      ensures n.left == null && n.key != op.key && !op.Add? ==> out == Err(KeyNotFound)
      ensures n.left != null ==> d < BITS && Descending(fields, H, ongoing, op, S(), d, out)
    {
      hide CellAt, Descending, AtChild, Holds;
      HoldsCell(S(), n, H(op.key)[..d]);
      Shown(n);
      LeafFacts(fields, H, ongoing, op, S(), n, n.Snapshot(), d, out);
    }

    /** Add at a node it has reached: fill a placeholder, give up at the leaf of the same key,
        make room at the leaf of another key. */
    method Visit(n: Node, ghost op: Op, ghost d: nat, ghost out: Result, key: Bytes, raw: seq<Bytes>, depth: nat)
        returns (turn: Turn)
      requires op == Op.Add(key, raw) && key != [] && depth == d <= BITS && Holds(S(), n, H(op.key)[..d])
      requires AtChild(fields, H, ongoing, op, S(), d, out)
      modifies this`nodes, this`world, this`arrays, n
      ensures Holds(S(), n, H(op.key)[..d]) && Saved(S()) == old(Saved(S()))
        && Lineage(old(S()), S(), H(op.key), op.key) && n.known
      ensures turn.Refused? ==>
        out == Err(KeyCollision) && S() == old(S()) && old(n.left) == null && old(n.key) == key
      ensures turn.Filled? ==> Climbing(fields, ongoing, op, S(), H(op.key), d, out)
      ensures turn.Further? ==> d < BITS && Descending(fields, H, ongoing, op, S(), d, out)
      ensures turn.Further? ==> if old(n.left) == null then JustSplit(Build(Now(S()), H(op.key)[..d]), op.key)
        else S() == old(S())
      ensures old(arrays) <= arrays && fresh(arrays - old(arrays)) && old(world) <= world
        && fresh(world - old(world)) && Extends(old(nodes), nodes)
      ensures old(FlagsClosed(S())) ==> FlagsClosed(S())
    {
      hide S, Holds, Descending, AtChild, Climbing, Now, Saved, Lineage, JustSplit, Build, FlagsClosed;
      ghost var s := S();
      LineageSame(s, H(op.key), op.key);
      ChildShown(n, op, d, out);
      if n.IsPlaceholderNode() {
        PlaceLeaf(n, op, d, out, key, raw);
        return Filled;
      } else if n.IsLeaf() {
        var same := ByteSlice.Equal(key, n.key);
        if same {
          return Refused;
        }
        MakeRoom(n, H(n.key)[depth], op, d, out);
        LineageWiden(s, S(), H(op.key), [], H(op.key), op.key);
      }
      turn := Further;
    }

    /** The first loop of Add: down to the node that becomes the leaf of the key. */
    method SinkAndFill(key: Bytes, raw: seq<Bytes>, ghost op: Op, ghost out: Result)
        returns (err: Option<Error>, leaf: Node, ghost d: nat)
      requires op == Op.Add(key, raw) && key != [] && root.known
      requires Holds(S(), root, H(op.key)[..0]) && Descending(fields, H, ongoing, op, S(), 0, out)
      modifies this`nodes, this`world, this`arrays, world
      ensures err.Some? ==> S() == old(S()) && out == Err(err.value)
      ensures err == None ==>
        && d <= BITS && Holds(S(), leaf, H(op.key)[..d]) && Climbing(fields, ongoing, op, S(), H(op.key), d, out)
        && root.known && Saved(S()) == old(Saved(S())) && Lineage(old(S()), S(), H(op.key), op.key)
           && Extends(old(nodes), nodes) && (old(FlagsClosed(S())) ==> FlagsClosed(S()))
      ensures old(arrays) <= arrays && fresh(arrays - old(arrays)) && old(world) <= world && fresh(world - old(world))
    {
      hide S, Holds, Descending, AtChild, Climbing, Now, Saved, Lineage, JustSplit, Build, FlagsClosed;
      ghost var s := S();
      LineageSame(s, H(op.key), op.key);
      var path := H(key);
      var depth: nat := 0;
      var cursor: Node := root;
      while true
        invariant depth <= BITS && Holds(S(), cursor, H(op.key)[..depth])
        invariant Descending(fields, H, ongoing, op, S(), depth, out)
        invariant S() == s || JustSplit(Build(Now(S()), H(op.key)[..depth]), op.key)
        invariant root.known && Saved(S()) == Saved(s) && Lineage(s, S(), H(op.key), op.key)
          && Extends(old(nodes), nodes) && (FlagsClosed(s) ==> FlagsClosed(S()))
        invariant old(arrays) <= arrays && fresh(arrays - old(arrays)) && old(world) <= world
          && fresh(world - old(world))
        decreases BITS - depth
      {
        CursorShown(cursor, op, depth, out);
        var ok, child := StepDown(cursor, path[depth], op, depth, out);
        if !ok {
          return Some(UnknownSubtree), root, 0;
        }
        depth := depth + 1;
        cursor := child;
        ChildShown(cursor, op, depth, out);
        ghost var s1, nodes1 := S(), nodes;
        var turn := Visit(cursor, op, depth, out, key, raw, depth);
        LineageTrans(s, s1, S(), H(op.key), op.key);
        ExtendsTrans(old(nodes), nodes1, nodes);
        if turn.Filled? {
          return None, cursor, depth;
        } else if turn.Refused? {
          return Some(KeyCollision), root, 0;
        }
      }
    }

    /** Add, once the values have been encoded */
    method Insert(key: Bytes, raw: seq<Bytes>) returns (err: Option<Error>)
      requires Proper(fields, H, scope, ongoing, S()) && OpOk(fields, Op.Add(key, raw)) && key != []
      requires Apart(H, Stored(TreeNow(S())), key)
      modifies this`nodes, this`world, this`arrays, world
      ensures Proper(fields, H, scope, ongoing, S()) && Saved(S()) == old(Saved(S()))
      ensures ongoing ==> Accounts(fields, H, Op.Add(key, raw), old(S()), S())
      ensures err.Some? ==> S() == old(S())
      ensures Apply(fields, H, ongoing, Op.Add(key, raw), old(TreeNow(S()))) ==
        if err == None then Ok(TreeNow(S())) else Err(err.value)
      ensures old(arrays) <= arrays && fresh(arrays - old(arrays)) && old(world) <= world && fresh(world - old(world))
    {
      hide S, Proper, Holds, Descending, Climbing, Now, Saved, TreeNow, Apply, RootKnown, OpOk, Lineage, Extends,
        Accounts, FlagsClosed;
      ghost var op := Op.Add(key, raw);
      ghost var s := S();
      ProperParts(fields, H, scope, ongoing, s);
      ghost var out := Apply(fields, H, ongoing, op, TreeNow(s));
      StartShown(op);
      MapsShown();
      if !root.known {
        InsertDone(fields, H, scope, ongoing, op, s, s, Some(UnknownSubtree));
        return Some(UnknownSubtree);
      }
      var leaf;
      ghost var d;
      err, leaf, d := SinkAndFill(key, raw, op, out);
      if err == None {
        ghost var s1 := S();
        Ascend(leaf, op, d, out);
        LineageWiden(s1, S(), H(key), [], H(key), key);
        LineageTrans(s, s1, S(), H(key), key);
        EditDone(fields, H, scope, ongoing, op, s, S(), out);
      }
      MapsShown();
      InsertDone(fields, H, scope, ongoing, op, s, S(), err);
    }

    /** The first loop of Set and Remove: down to the leaf of the key. */
    method SinkToLeaf(key: Bytes, ghost op: Op, ghost out: Result)
        returns (err: Option<Error>, leaf: Node, ghost d: nat)
      requires op.key == key && !op.Add? && root.known
      requires Holds(S(), root, H(op.key)[..0]) && Descending(fields, H, ongoing, op, S(), 0, out)
      ensures err.Some? ==> out == Err(err.value)
      ensures err == None ==>
        && d <= BITS && Holds(S(), leaf, H(op.key)[..d]) && AtChild(fields, H, ongoing, op, S(), d, out)
        && leaf in world && leaf.known && leaf.left == null && leaf.key == key && !leaf.lent
        && leaf.values in arrays && leaf.values.Length == |fields|
    {
      hide S, Holds, Descending, AtChild, JustSplit, Build;
      var path := H(key);
      var depth: nat := 0;
      var cursor: Node := root;
      while true
        invariant depth <= BITS && Holds(S(), cursor, H(op.key)[..depth])
        invariant Descending(fields, H, ongoing, op, S(), depth, out)
        decreases BITS - depth
      {
        CursorShown(cursor, op, depth, out);
        var ok, child := StepDown(cursor, path[depth], op, depth, out);
        if !ok {
          return Some(UnknownSubtree), root, 0;
        }
        depth := depth + 1;
        cursor := child;
        ChildShown(cursor, op, depth, out);
        if cursor.IsLeaf() {
          var same := ByteSlice.Equal(cursor.key, key);
          if !same {
            return Some(KeyNotFound), root, 0;
          }
          return None, cursor, depth;
        }
      }
    }

    lemma SliceShown(n: Node, p: Path)
      requires Holds(S(), n, p) && n.known && n.left == null && !n.lent
      ensures LeafSlice(S(), n.key, n.values)
    {
      hide CellAt, Holds, LeafSlice;
      HoldsCell(S(), n, p);
      Shown(n);
      LeafSliceShown(S(), n, p, n.Snapshot());
    }

    /** Set, once the values have been encoded; None stands for a value that stays the same. */
    method Change(key: Bytes, change: seq<Option<Bytes>>) returns (err: Option<Error>, ghost x: Slice)
      requires Proper(fields, H, scope, ongoing, S()) && OpOk(fields, Op.Set(key, change)) && |change| == |fields|
      modifies this`arrays, world, arrays
      ensures Proper(fields, H, scope, ongoing, S())
      ensures err.Some? ==> S() == old(S())
      ensures Apply(fields, H, ongoing, Op.Set(key, change), old(TreeNow(S()))) ==
        if err == None then Ok(TreeNow(S())) else Err(err.value)
      ensures err == None ==> LeafSlice(old(S()), key, x) && Saved(S()) == SavedWith(old(S()), x, change)
      ensures ongoing && key != [] ==> Accounts(fields, H, Op.Set(key, change), old(S()), S())
      ensures old(arrays) <= arrays && fresh(arrays - old(arrays))
    {
      hide S, Proper, Holds, Descending, AtChild, Climbing, Now, Saved, Lineage, SavedWith, Owned, LeafSlice,
        TreeNow, Apply, RootKnown, OpOk, Extends, Accounts, FlagsClosed;
      ghost var op := Op.Set(key, change);
      ghost var s := S();
      ProperParts(fields, H, scope, ongoing, s);
      ghost var out := Apply(fields, H, ongoing, op, TreeNow(s));
      StartShown(op);
      MapsShown();
      x := root.values;
      if !root.known {
        ChangeDone(fields, H, scope, ongoing, op, s, s, Some(UnknownSubtree), x);
        return Some(UnknownSubtree), x;
      }
      var leaf;
      ghost var d;
      err, leaf, d := SinkToLeaf(key, op, out);
      if err == None {
        x := leaf.values;
        SliceShown(leaf, H(op.key)[..d]);
        Rewrite(leaf, op, d, out, change);
        ghost var s1 := S();
        Ascend(leaf, op, d, out);
        LineageTrans(s, s1, S(), H(key), []);
        OwnedStays(s1, S(), H(key), [], x);
        EditDone(fields, H, scope, ongoing, op, s, S(), out);
      }
      MapsShown();
      ExtendsSame(nodes);
      ChangeDone(fields, H, scope, ongoing, op, s, S(), err, x);
    }

    /** The collapse: the one remaining leaf below the node moves up into it. */
    method Collapse(n: Node, ghost op: Op, ghost d: nat, ghost out: Result)
      requires 0 < d <= BITS && Holds(S(), n, H(op.key)[..d - 1]) && n.known
      requires Climbing(fields, ongoing, op, S(), H(op.key), d, out) && Lifts(op, Now(S()), H(op.key)[..d - 1])
      modifies this`arrays, this`nodes, n`backup, n`lbl, n`key, n`values, n`left, n`right, n`lent
      ensures Holds(S(), n, H(op.key)[..d - 1]) && Climbing(fields, ongoing, op, S(), H(op.key), d - 1, out)
      ensures Saved(S()) == old(Saved(S())) && old(arrays) <= arrays && fresh(arrays - old(arrays))
      ensures Lineage(old(S()), S(), H(op.key), []) && Extends(nodes, old(nodes))
      ensures ongoing && old(FlagsBelow(S(), H(op.key), d)) ==> FlagsBelow(S(), H(op.key), d - 1)
    {
      hide S, CellAt, Holds, Climbing, Lifts, Lifted, Now, Saved, Lineage, FreeAt, Stirs, CanLiftAt, Cuts,
        AtMostBackup, FlagsStay, FlagsBelow;
      ghost var s0 := S();
      LineageSame(s0, H(op.key), []);
      FlagsStaySame(s0, H(op.key)[..d - 1]);
      ghost var p := H(op.key)[..d - 1];
      LiftsBelowRoot(op, Now(S()), p);
      if ongoing {
        ghost var s := S();
        BackUp(n, p);
        LineageStep(s, s, S(), H(op.key), d - 1, [], []);
        BackupReturn(fields, op, s, n, S(), H(op.key), d, out);
      }
      ghost var s := S();
      HoldsCell(s, n, p);
      Shown(n);
      ReturnCanLift(fields, ongoing, op, s, n, H(op.key), d, out);
      LiftChild(n, p);
      LineageStep(s0, s, S(), H(op.key), d - 1, [], []);
      HoldsCell(S(), n, p);
      Shown(n);
      LiftReturn(fields, ongoing, op, s, n, n.Snapshot(), S(), H(op.key), d, out);
      FlagsStayTrans(s0, s, S(), p);
      LiftKeepsFlags(fields, ongoing, op, s0, n, s, n.Snapshot(), S(), H(op.key), d, out);
    }

    lemma SiblingsShown(n: Node, op: Op, d: nat, out: Result)
      requires 0 < d <= BITS && Holds(S(), n, H(op.key)[..d - 1]) && op.Remove?
      requires Climbing(fields, ongoing, op, S(), H(op.key), d, out)
      ensures n in world && n.left != null && n.right != null && n.left in world && n.right in world
      ensures n.parent != null <==> d > 1
      ensures Lifts(op, Now(S()), H(op.key)[..d - 1]) <==>
        (n.parent != null && ((n.left.IsPlaceholderNode() && n.right.IsLeaf())
          || (n.right.IsPlaceholderNode() && n.left.IsLeaf())))
    {
      hide Climbing, Lifts, Now;
      HoldsCell(S(), n, H(op.key)[..d - 1]);
      Shown(n);
      ReturnChildren(fields, ongoing, op, S(), n, n.Snapshot(), H(op.key), d, out);
      assert Linked(S(), H(op.key)[..d - 1]);
    }

    /** The loop at the end of Remove. */
    method AscendAndCollapse(n: Node, ghost op: Op, ghost d: nat, ghost out: Result)
      requires d <= BITS && Holds(S(), n, H(op.key)[..d]) && Climbing(fields, ongoing, op, S(), H(op.key), d, out)
      requires op.Remove? && root.known
      modifies this`arrays, this`nodes, world
      ensures Climbing(fields, ongoing, op, S(), H(op.key), 0, out) && root.known
      ensures Saved(S()) == old(Saved(S())) && old(arrays) <= arrays && fresh(arrays - old(arrays))
      ensures Lineage(old(S()), S(), H(op.key), []) && Extends(nodes, old(nodes))
      ensures ongoing && old(FlagsClosed(S())) ==> FlagsClosed(S())
    {
      hide S, Holds, Climbing, Now, Saved, Lineage, Lifts, FlagsClosed, FlagsBelow;
      ghost var s := S();
      LineageSame(s, H(op.key), []);
      FlagsFrom(s, H(op.key), d);
      var cursor: Node := n;
      ghost var k: nat := d;
      while true
        invariant k <= d && Holds(S(), cursor, H(op.key)[..k])
          && Climbing(fields, ongoing, op, S(), H(op.key), k, out)
        invariant root.known && Saved(S()) == old(Saved(S()))
        invariant Lineage(s, S(), H(op.key), []) && Extends(nodes, old(nodes))
        invariant ongoing && FlagsClosed(s) ==> FlagsBelow(S(), H(op.key), k)
        invariant old(arrays) <= arrays && fresh(arrays - old(arrays))
        decreases k
      {
        ReturnShown(cursor, op, k, out);
        if cursor.parent == null {
          FlagsOver(S(), H(op.key));
          break;
        }
        cursor := cursor.parent;
        k := k - 1;
        SiblingsShown(cursor, op, k + 1, out);
        ghost var s1, nodes1 := S(), nodes;
        if cursor.parent != null &&
          ((cursor.left.IsPlaceholderNode() && cursor.right.IsLeaf())
            || (cursor.right.IsPlaceholderNode() && cursor.left.IsLeaf())) {
          Collapse(cursor, op, k + 1, out);
        } else {
          Mark(cursor, op, k + 1, out);
        }
        LineageTrans(s, s1, S(), H(op.key), []);
        ExtendsTrans(nodes, nodes1, old(nodes));
      }
    }

    /** Remove */
    method Delete(key: Bytes) returns (err: Option<Error>)
      requires Proper(fields, H, scope, ongoing, S())
      modifies this`arrays, this`nodes, world
      ensures Proper(fields, H, scope, ongoing, S()) && Saved(S()) == old(Saved(S()))
      ensures err.Some? ==> S() == old(S())
      ensures Apply(fields, H, ongoing, Op.Remove(key), old(TreeNow(S()))) ==
        if err == None then Ok(TreeNow(S())) else Err(err.value)
      ensures ongoing && key != [] ==> Accounts(fields, H, Op.Remove(key), old(S()), S())
      ensures old(arrays) <= arrays && fresh(arrays - old(arrays))
    {
      hide S, Proper, Holds, Descending, AtChild, Climbing, Now, Saved, Lineage, TreeNow, Apply, RootKnown, Extends,
        Accounts, FlagsClosed;
      ghost var op := Op.Remove(key);
      ghost var s := S();
      ProperParts(fields, H, scope, ongoing, s);
      ghost var out := Apply(fields, H, ongoing, op, TreeNow(s));
      StartShown(op);
      MapsShown();
      if !root.known {
        DeleteDone(fields, H, scope, ongoing, op, s, s, Some(UnknownSubtree));
        return Some(UnknownSubtree);
      }
      var leaf;
      ghost var d;
      err, leaf, d := SinkToLeaf(key, op, out);
      if err == None {
        Vacate(leaf, op, d, out);
        ghost var s1 := S();
        AscendAndCollapse(leaf, op, d, out);
        LineageTrans(s, s1, S(), H(key), []);
        EditDone(fields, H, scope, ongoing, op, s, S(), out);
      }
      MapsShown();
      DeleteDone(fields, H, scope, ongoing, op, s, S(), err);
    }

    // ---- garbage collection ----

    method PruneRaw(n: Node, ghost p: Path)
      requires p in nodes && n == nodes[p] && n in world
      modifies this`arrays, this`nodes, n`known, n`key, n`values, n`left, n`right, n`lent
      ensures OneCell(old(S()), p, n.Snapshot(), S()) && nodes == CutNodes(old(nodes), p)
      ensures old(S()).cells[n] == old(n.Snapshot()) && n.values !in old(S()).slices && S().slices[n.values] == []
      ensures n.Snapshot() == old(n.Snapshot()).(known := false, key := [], values := n.values, left := null,
        right := null, lent := false)
      ensures old(arrays) <= arrays && fresh(arrays - old(arrays))
    {
      n.Forget();
      arrays := arrays + {n.values};
      nodes := CutNodes(nodes, p);
      TouchesStore(n);
    }

    /** A node out of scope is forgotten, with everything below it; its label stays. */
    method Prune(n: Node, ghost p: Path)
      requires Still(S()) && Holds(S(), n, p)
      modifies this`arrays, this`nodes, n`known, n`key, n`values, n`left, n`right, n`lent
      ensures Still(S()) && Holds(S(), n, p) && Confined(old(S()), p, S())
      ensures Build(Now(S()), p) == Scopes.Prune(Build(old(Now(S())), p))
      ensures old(arrays) <= arrays && fresh(arrays - old(arrays))
    {
      hide Still, Holds, OneCell, Now, Build, Confined;
      ghost var s, o := S(), n.Snapshot();
      HoldsCell(s, n, p);
      PruneRaw(n, p);
      PruneDone(s, n, p, o, n.Snapshot(), S());
    }

    lemma StillShown(n: Node, p: Path)
      requires Still(S()) && Holds(S(), n, p)
      ensures n in world && p in nodes && n == nodes[p] && FreeAt(S(), p) && |p| <= BITS
      ensures Build(Now(S()), p).d.known == n.known && (Build(Now(S()), p).Leaf? <==> n.left == null)
      ensures n.left == null <==> n.right == null
      ensures n.left != null ==> |p| < BITS && n.left in world && n.right in world
      ensures n.left != null ==> Holds(S(), n.left, p + [false]) && Holds(S(), n.right, p + [true])
      ensures n.left != null ==> Build(Now(S()), p).left == Build(Now(S()), p + [false])
      ensures n.left != null ==> Build(Now(S()), p).right == Build(Now(S()), p + [true])
    {
      hide Still, Holds, Now, Build, CellAt, FreeAt;
      HoldsCell(S(), n, p);
      Shown(n);
      StillFree(S(), n, p);
      StillChildren(S(), n, p, n.Snapshot());
    }

    /** Collect at and below a node; `path` spells the way to it, and is a value of the callee. */
    method Sweep(n: Node, path: Bytes, bit: nat, ghost p: Path)
      requires ScopeOk(scope) && |path| == 32 && |p| == bit + 1 && Spells(path, p)
      requires Still(S()) && Holds(S(), n, p)
      modifies this`arrays, this`nodes, world
      ensures Still(S()) && Holds(S(), n, p) && Confined(old(S()), p, S())
      ensures Build(Now(S()), p) == CollectAt(scope, Build(old(Now(S())), p), p)
      ensures old(arrays) <= arrays && fresh(arrays - old(arrays))
      decreases BITS - |p|
    {
      hide S, CellAt, Still, Holds, Now, Build, Confined, Spells, FreeAt, ScopeOk;
      ghost var s, c := S(), n.Snapshot();
      StillShown(n, p);
      HoldsCell(s, n, p);
      Shown(n);
      if !n.known {
        StillSame(s, p);
        return;
      }
      if bit > 0 {
        var inScope := MatchScope(scope, path, bit - 1, p);
        if !inScope {
          Prune(n, p);
          return;
        }
      }
      if n.IsLeaf() {
        StillSame(s, p);
      } else {
        SpellMore(path, p, false);
        SpellMore(path, p, true);
        Sweep(n.left, ByteSlice.Assign(path, bit + 1, false), bit + 1, p + [false]);
        ghost var s1 := S();
        SiblingHolds(s, n, p, c, s1);
        Shown(n);
        Sweep(n.right, ByteSlice.Assign(path, bit + 1, true), bit + 1, p + [true]);
        CollectDone(scope, s, n, p, s1, S());
      }
    }

    /** Collect: every node that is not in scope is forgotten. */
    method Collect()
      requires Proper(fields, H, scope, false, S())
      modifies this`arrays, this`nodes, world
      ensures Proper(fields, H, scope, false, S())
      ensures TreeNow(S()) == Scopes.Collect(scope, old(TreeNow(S())))
      ensures old(arrays) <= arrays && fresh(arrays - old(arrays))
    {
      hide S, CellAt, Still, Holds, Now, Build, Confined, Spells, FreeAt, Proper, ScopeOk;
      ghost var s, c := S(), root.Snapshot();
      RootStill();
      if !root.known {
        return;
      }
      var path: Bytes := seq(32, i => 0);
      var none := NothingInScope(path);
      if none {
        Prune(root, []);
      } else {
        SpellNothing(path);
        SpellMore(path, [], false);
        path := ByteSlice.Assign(path, 0, false);
        Sweep(root.left, path, 0, [] + [false]);
        ghost var s1 := S();
        SiblingHolds(s, root, [], c, s1);
        Shown(root);
        SpellNothing(path);
        SpellMore(path, [], true);
        path := ByteSlice.Assign(path, 0, true);
        Sweep(root.right, path, 0, [] + [true]);
        CollectRootDone(scope, s, root, s1, S());
      }
      CollectProper(fields, H, scope, s, S());
    }

    lemma RootStill()
      requires Proper(fields, H, scope, false, S())
      ensures Still(S()) && Holds(S(), root, []) && root in world && CellAt(S(), root, root.Snapshot())
        && ScopeOk(scope)
      ensures TreeNow(S()).d.known == root.known && (root.left == null <==> root.right == null)
      ensures root.known ==> TreeNow(S()).Inner? && root.left != null && root.left in world && root.right in world
      ensures root.known ==> Holds(S(), root.left, [] + [false]) && Holds(S(), root.right, [] + [true])
    {
      hide Proper, Still, Holds, Build, Now;
      ProperRootStill(fields, H, scope, S());
      StillShown(root, []);
      HoldsCell(S(), root, []);
      Shown(root);
    }

    /** The first part of Collect: does the scope match on both sides of the root? */
    method NothingInScope(zeros: Bytes) returns (none: bool)
      requires ScopeOk(scope) && |zeros| == 32
      ensures none <==> scope == SCOPE_NONE
    {
      ScopeOfRoot(scope);
      none := true;
      var path := ByteSlice.Assign(zeros, 0, false);
      var inScope := MatchScope(scope, path, 0, []);
      if inScope {
        none := false;
      }
      path := ByteSlice.Assign(path, 0, true);
      inScope := MatchScope(scope, path, 0, []);
      if inScope {
        none := false;
      }
    }

    // ---- the end of a transaction ----

    method DropBackup(n: Node)
      requires n in world
      modifies n`backup
      ensures VisitsOne(old(S()), n, false, S()) && n in S().cells
        && n.Snapshot() == Visited(false, old(n.Snapshot()))
    {
      n.backup := None;
      TouchesStore(n);
    }

    /** confirm: the backups at and below a node are dropped. */
    method Confirm(n: Node, ghost p: Path, ghost s0: Store)
      requires Walkable(s0, nodes, false) && p in nodes && n == nodes[p] && Pending(s0, nodes, p, S())
      modifies world
      ensures Walked(old(S()), nodes, p, false, S())
      decreases BITS - |p|
    {
      hide S, Walkable, Pending, Walked, VisitsOne;
      ghost var s := S();
      VisitShown(n, p, s0, nodes, false);
      if n.inconsistent || n.backup.Some? {
        DropBackup(n);
        ghost var s1 := S();
        Shown(n);
        if n.IsLeaf() {
          WalkLeaf(s0, nodes, false, p, s, s1);
        } else {
          WalkDown(s0, nodes, false, p, false, s, s1);
          WalkDown(s0, nodes, false, p, true, s, s1);
          Confirm(n.left, p + [false], s0);
          ghost var s2 := S();
          WalkAcross(s0, nodes, false, p, s1, s2);
          Shown(n);
          Confirm(n.right, p + [true], s0);
          WalkBoth(s0, nodes, false, p, s, s1, s2, S());
        }
      } else {
        WalkSkip(s0, nodes, false, p, s);
      }
    }

    lemma VisitShown(n: Node, p: Path, s0: Store, at: map<Path, Node>, undo: bool)
      requires Walkable(s0, at, undo) && p in at && n == at[p] && Pending(s0, at, p, S())
      ensures n in world && CellAt(S(), n, n.Snapshot()) && |p| <= BITS
      ensures
        var c := Visited(undo, n.Snapshot());
        if c.left == null then c.right == null
        else
          && c.right != null && |p| < BITS
          && p + [false] in at && at[p + [false]] == c.left && p + [true] in at && at[p + [true]] == c.right
    {
      hide Walkable, Pending;
      WalkLinks(s0, at, undo, p, S());
      Shown(n);
    }

    method RenewRaw(n: Node, ghost p: Path, ghost both: bool, ghost l: seq<Bytes>, ghost r: seq<Bytes>)
      requires p in nodes && n == nodes[p] && n in world && n.values in arrays
        && (n.left == null <==> n.right == null)
      requires n.left != null ==>
        n.left in world && n.right in world && n.left.values in arrays && n.right.values in arrays
      requires both <==> n.left != null && n.left.known && n.right.known
      requires both ==>
        l == n.left.values[..] && r == n.right.values[..] && ValuesOk(fields, l) && ValuesOk(fields, r)
      modifies this`arrays, n`values, n`lbl, n`lent, n`inconsistent
      ensures OneCell(old(S()), p, n.Snapshot(), S()) && nodes == old(nodes)
      ensures n.Snapshot() == old(n.Snapshot()).(values := n.values, lbl := n.lbl, lent := n.lent,
        inconsistent := false)
      ensures !n.known || (n.left != null && !both) ==>
        n.values == old(n.values) && n.lbl == old(n.lbl) && n.lent == old(n.lent)
      ensures n.known && n.left == null ==>
        n.values == old(n.values) && n.lent == old(n.lent) && n.lbl == LeafLabel(n.key, old(S()).slices[n.values])
      ensures n.known && both ==>
        && n.values !in old(arrays) && !n.lent && n.values[..] == ParentValues(fields, l, r)
        && n.lbl == InnerLabel(ParentValues(fields, l, r), old(n.left.lbl), old(n.right.lbl))
      ensures n.values in arrays && old(arrays) <= arrays && fresh(arrays - old(arrays))
    {
      var ok := n.Update(fields);
      n.inconsistent := false;
      arrays := arrays + {n.values};
      TouchesStore(n);
    }

    /** update, whatever comes of it, and the flag is cleared */
    method Renew(n: Node, ghost p: Path)
      requires Mending(S()) && Holds(S(), n, p) && RenewOk(fields, S(), p) && RenewEnds(fields, S(), p)
      modifies this`arrays, n`values, n`lbl, n`lent, n`inconsistent
      ensures Mending(S()) && Holds(S(), n, p) && Confined(old(S()), p, S()) && NoneLent(S(), p)
      ensures Build(Now(S()), p) == Refreshed(fields, Build(old(Now(S())), p))
      ensures old(arrays) <= arrays && fresh(arrays - old(arrays))
    {
      hide Mending, Holds, RenewOk, RenewEnds, Confined, NoneLent, Now, Build, OneCell, RenewedCell, Refreshed;
      ghost var s, o := S(), n.Snapshot();
      HoldsCell(s, n, p);
      RenewReady(fields, s, n, p, o);
      ghost var l := if n.left != null then n.left.Snapshot() else o;
      ghost var r := if n.right != null then n.right.Snapshot() else o;
      RenewRaw(n, p, n.left != null && n.left.known && n.right.known, s.slices[l.values], s.slices[r.values]);
      RenewedFrom(fields, s, n, p, o, l, r, n.Snapshot(), S());
      RenewDone(fields, s, n, p, n.Snapshot(), S());
    }

    lemma MendShown(n: Node, p: Path)
      requires Mending(S()) && Holds(S(), n, p)
      ensures n in world && CellAt(S(), n, n.Snapshot()) && n.values in arrays && |p| <= BITS
      ensures Build(Now(S()), p).d.dirty == n.inconsistent && (n.left == null <==> n.right == null)
    {
      hide Mending, Holds, Now, Build, FreeAt;
      HoldsCell(S(), n, p);
      Shown(n);
      MendNode(S(), n, p, n.Snapshot());
    }

    /** fix: the flagged nodes at and below a node are relabelled, children first. */
    method Fix(n: Node, ghost p: Path)
      requires Mending(S()) && Holds(S(), n, p) && LentBelow(S(), p) && Repairable(fields, Build(Now(S()), p))
      modifies this`arrays, world
      ensures Mending(S()) && Holds(S(), n, p) && Confined(old(S()), p, S()) && NoneLent(S(), p)
      ensures Build(Now(S()), p) == Lazy.Fix(fields, Build(old(Now(S())), p))
      ensures old(arrays) <= arrays && fresh(arrays - old(arrays))
      decreases BITS - |p|, 1
    {
      hide S, Mending, Holds, LentBelow, Repairable, RenewOk, RenewEnds, Confined, NoneLent, Now, Build, Refreshed,
        ChildrenFixed, Lazy.Fix, CellAt;
      ghost var s := S();
      MendShown(n, p);
      if n.inconsistent {
        if n.IsLeaf() {
          MendLeaf(fields, s, n, p, n.Snapshot());
        } else {
          FixChildren(n, p);
        }
        ghost var s2 := S();
        Renew(n, p);
        MendDone(fields, s, n, p, Build(Now(s), p), s2, S());
      } else {
        MendSkip(fields, s, n, p, n.Snapshot());
      }
    }

    method FixChildren(n: Node, ghost p: Path)
      requires Mending(S()) && Holds(S(), n, p) && LentBelow(S(), p) && Repairable(fields, Build(Now(S()), p))
      requires n.left != null && n.right != null && n.inconsistent && |p| <= BITS
      modifies this`arrays, world
      ensures Mending(S()) && Holds(S(), n, p) && Confined(old(S()), p, S())
      ensures RenewOk(fields, S(), p) && RenewEnds(fields, S(), p) && n.values in arrays && n in world
      ensures Build(Now(S()), p) == ChildrenFixed(fields, Build(old(Now(S())), p))
      ensures old(arrays) <= arrays && fresh(arrays - old(arrays))
      decreases BITS - |p|, 0
    {
      hide S, Mending, Holds, LentBelow, Repairable, RenewOk, RenewEnds, Confined, NoneLent, Now, Build,
        ChildrenFixed, Lazy.Fix;
      ghost var s, c := S(), n.Snapshot();
      MendShown(n, p);
      MendChild(fields, s, n, p, c, false);
      MendChild(fields, s, n, p, c, true);
      Fix(n.left, p + [false]);
      ghost var s1 := S();
      MendAcross(fields, s, n, p, c, s1);
      Shown(n);
      Fix(n.right, p + [true]);
      MendJoin(fields, s, n, p, c, s1, S());
      MendShown(n, p);
    }

    method RestoreNode(n: Node)
      requires n in world
      modifies n
      ensures VisitsOne(old(S()), n, true, S()) && n in S().cells && n.Snapshot() == Visited(true, old(n.Snapshot()))
    {
      n.Restore();
      TouchesStore(n);
    }

    /** The walk of Rollback, at and below a node. */
    method Restore(n: Node, ghost p: Path, ghost s0: Store)
      requires Walkable(s0, orig, true) && p in orig && n == orig[p] && Pending(s0, orig, p, S())
      modifies world
      ensures Walked(old(S()), orig, p, true, S())
      decreases BITS - |p|
    {
      hide S, Walkable, Pending, Walked, VisitsOne;
      ghost var s := S();
      VisitShown(n, p, s0, orig, true);
      if n.inconsistent || n.backup.Some? {
        RestoreNode(n);
        ghost var s1 := S();
        Shown(n);
        if n.IsLeaf() {
          WalkLeaf(s0, orig, true, p, s, s1);
        } else {
          WalkDown(s0, orig, true, p, false, s, s1);
          WalkDown(s0, orig, true, p, true, s, s1);
          Restore(n.left, p + [false], s0);
          ghost var s2 := S();
          WalkAcross(s0, orig, true, p, s1, s2);
          Shown(n);
          Restore(n.right, p + [true], s0);
          WalkBoth(s0, orig, true, p, s, s1, s2, S());
        }
      } else {
        WalkSkip(s0, orig, true, p, s);
      }
    }

    // ---- a node without children is written, or gets children ----

    method WriteLeafRaw(n: Node, known: bool, lbl: Label, key: Bytes, vs: seq<Bytes>, ghost p: Path)
      requires p in nodes && n == nodes[p] && n in world && n.left == null && n.right == null
      modifies this`arrays, n`known, n`lbl, n`key, n`values, n`lent
      ensures OneCell(old(S()), p, n.Snapshot(), S()) && nodes == old(nodes) && n.left == null && n.right == null
      ensures WrittenCell(old(S()), old(n.Snapshot()), n.Snapshot(), S(), known, lbl, key, vs)
      ensures old(arrays) <= arrays && fresh(arrays - old(arrays))
    {
      n.Become(known, lbl, key, vs);
      arrays := arrays + {n.values};
      TouchesStore(n);
    }

    method WriteLeaf(n: Node, known: bool, lbl: Label, key: Bytes, vs: seq<Bytes>, ghost p: Path)
      requires Still(S()) && Holds(S(), n, p) && n.left == null
      modifies this`arrays, n`known, n`lbl, n`key, n`values, n`lent
      ensures Still(S()) && Holds(S(), n, p) && Confined(old(S()), p, S())
      ensures Build(Now(S()), p) == Leaf(NodeData(known, lbl, key, vs, n.inconsistent))
      ensures old(arrays) <= arrays && fresh(arrays - old(arrays))
    {
      hide Still, Holds, OneCell, Now, Build, Confined, WrittenCell;
      ghost var s, o := S(), n.Snapshot();
      HoldsCell(s, n, p);
      WriteLeafRaw(n, known, lbl, key, vs, p);
      WriteLeafDone(s, n, p, o, n.Snapshot(), S(), known, lbl, key, vs);
    }

    method OpenRaw(n: Node, known: bool, lbl: Label, key: Bytes, vs: seq<Bytes>, ll: Label, rl: Label, ghost p: Path)
      requires n in world
      modifies this`arrays, this`world, this`nodes, n`known, n`lbl, n`key, n`values, n`lent, n`left, n`right
      ensures n.left != null && n.right != null && fresh(n.left) && fresh(n.right) && Branched(n, n.left, n.right)
      ensures nodes == old(nodes)[p + [false] := n.left][p + [true] := n.right]
      ensures WrittenCell(old(S()), old(n.Snapshot()), n.Snapshot(), S(), known, lbl, key, vs)
      ensures n.left.Snapshot() == Cell(false, ll, [], n.left.values, false, false, None, n, null, null)
      ensures n.right.Snapshot() == Cell(false, rl, [], n.right.values, false, false, None, n, null, null)
      ensures n.left.values !in old(arrays) && n.right.values !in old(arrays) && n.left.values != n.right.values
      ensures n.values != n.left.values && n.values != n.right.values
      ensures n.left.values in arrays && n.right.values in arrays && n.left.values[..] == n.right.values[..] == []
      ensures old(arrays) <= arrays && fresh(arrays - old(arrays))
      ensures fresh(world - old(world)) && world == old(world) + {n.left, n.right}
    {
      n.Open(known, lbl, key, vs, ll, rl);
      world := world + {n.left, n.right};
      arrays := arrays + {n.values, n.left.values, n.right.values};
      nodes := nodes[p + [false] := n.left][p + [true] := n.right];
      TouchesTree(n, n.left, n.right);
    }

    method Open(n: Node, known: bool, lbl: Label, key: Bytes, vs: seq<Bytes>, ll: Label, rl: Label, ghost p: Path)
      requires Still(S()) && Holds(S(), n, p) && n.left == null && |p| < BITS
      modifies this`arrays, this`world, this`nodes, n`known, n`lbl, n`key, n`values, n`lent, n`left, n`right
      ensures Still(S()) && Holds(S(), n, p) && Confined(old(S()), p, S())
      ensures n.left != null && n.right != null && Holds(S(), n.left, p + [false]) && Holds(S(), n.right, p + [true])
      ensures fresh(n.left) && fresh(n.right) && n.left != n.right && n.left in world && n.right in world
      ensures n.right.left == null && n.left.left == null
      ensures !n.left.inconsistent && !n.right.inconsistent
      ensures
        Build(Now(S()), p) == Inner(NodeData(known, lbl, key, vs, n.inconsistent),
          Leaf(NodeData(false, ll, [], [], false)), Leaf(NodeData(false, rl, [], [], false)))
      ensures old(arrays) <= arrays && fresh(arrays - old(arrays)) && old(world) <= world && fresh(world - old(world))
    {
      hide Still, Holds, Now, Build, Confined, FreeAt;
      ghost var s, o := S(), n.Snapshot();
      HoldsCell(s, n, p);
      StillFree(s, n, p);
      OpenRaw(n, known, lbl, key, vs, ll, rl, p);
      OpenBranches(s, n, p, o, n.Snapshot(), n.left, n.left.Snapshot(), n.right, n.right.Snapshot(), S());
      OpenDone(s, n, p, o, n.Snapshot(), n.left, n.left.Snapshot(), n.right, n.right.Snapshot(), S(), known, lbl,
        key, vs);
    }

    // ---- transactions ----

    /** The invariant of a collection. */
    ghost predicate Valid()
      reads this, world, arrays
    {
      Proper(fields, H, scope, ongoing, S())
    }

    /** The tree of the collection. */
    ghost function T(): Tree
      reads this, world, arrays
    {
      TreeNow(S())
    }

    /** The tree that a rollback would bring back, flags aside. */
    ghost function BackTo(): Tree
      reads this, world, arrays
    {
      SavedTree(S())
    }

    /** Begin; it panics if a transaction is in progress. */
    method Begin()
      requires Valid() && !ongoing
      modifies this`ongoing, this`orig
      ensures Valid() && ongoing && T() == old(T()) && BackTo() == Plain(old(T())) && Tied(fields, H, S(), NO_TIES)
    {
      hide S, Proper, Now, SavedTree, TreeNow, Still, Tied;
      ghost var s := S();
      MapsShown();
      MoveOrig(nodes);
      ongoing := true;
      BeginDone(fields, H, scope, s, S());
      ProperStill(fields, H, scope, s);
      BeginTied(fields, H, scope, s, S());
    }

    lemma StillRoot()
      requires Still(S())
      ensures root in world && S().cells[root].inconsistent == root.inconsistent && S().root == root
    {
      assert Linked(S(), []);
    }

    /** Rollback: the tree is as it was, with all labels, but flags may stay set; those that do
        are closed toward the root, so that the next End clears them. */
    method Rollback()
      requires Valid() && ongoing
      modifies this`ongoing, this`id, this`orig, this`nodes, world
      ensures !ongoing && id == old(id) + 1 && Plain(T()) == old(BackTo()) && Closed(T())
      ensures Untouched(old(S()), []) ==> T().d.dirty == root.inconsistent == old(T().d.dirty)
      ensures Still(S()) && (Upright(fields, H, false, old(BackTo())) ==> Valid())
    {
      hide S, Proper, SavedTree, TreeNow, Walkable, Pending, Walked, Still, Upright, Untouched, Closed;
      ghost var s := S();
      MapsShown();
      RollbackStart(fields, H, scope, s);
      Restore(root, [], s);
      ghost var s1 := S();
      MoveBack();
      RollbackDone(fields, H, scope, s, s1, S());
      if Untouched(s, []) {
        RollbackFlag(fields, H, scope, s, s1, S());
        StillRoot();
      }
      id := id + 1;
      ongoing := false;
    }

    /** The first two steps of End: confirm and fix */
    method ConfirmAndFix()
      requires Proper(fields, H, scope, true, S())
      modifies this`orig, this`arrays, world
      ensures Proper(fields, H, scope, false, S()) && TreeNow(S()) == Lazy.Fix(fields, old(TreeNow(S())))
      ensures Clean(TreeNow(S()))
      ensures old(arrays) <= arrays && fresh(arrays - old(arrays))
    {
      hide S, Proper, Now, Build, Walkable, Pending, Walked, Mending, LentBelow, Holds, NoneLent, Confined,
        Repairable, Lazy.Fix, Clean;
      ghost var s := S();
      EndRepairable(fields, H, scope, s);
      MoveOrig(map[]);
      ghost var s1 := S();
      EndStart(fields, H, scope, s, s1);
      MapsShown();
      HoldsCell(s1, root, []);
      Confirm(root, [], s1);
      ConfirmDone(s1, S());
      MapsShown();
      Fix(root, []);
      FixDone(fields, H, scope, s, S());
    }

    /** End: the changes are confirmed, the flagged nodes relabelled, nodes out of scope forgotten;
        no flag remains, whatever an earlier Rollback has left. */
    method End()
      requires Valid() && ongoing
      modifies this`ongoing, this`id, this`orig, this`nodes, this`arrays, world
      ensures Valid() && !ongoing && id == old(id) + 1
      ensures T() == if autoCollect then Scopes.Collect(scope, Lazy.Fix(fields, old(T())))
        else Lazy.Fix(fields, old(T()))
      ensures Clean(T())
      ensures old(arrays) <= arrays && fresh(arrays - old(arrays))
    {
      hide S, Proper, TreeNow, Lazy.Fix, Scopes.Collect, Clean, ScopeOk;
      ProperParts(fields, H, scope, true, S());
      ConfirmAndFix();
      if autoCollect {
        CollectClean(scope, TreeNow(S()));
        Collect();
      }
      id := id + 1;
      ongoing := false;
    }

    // ---- the manipulators ----

    /** Add; it panics unless there is one value for each field. */
    method Add(key: Bytes, values: seq<Value>) returns (err: Option<Error>)
      requires Valid() && AdmitsAll(fields, values) && Apart(H, Stored(T()), key)
      modifies this`nodes, this`world, this`arrays, world
      ensures Valid() && (ongoing ==> BackTo() == old(BackTo()))
      ensures
        var op := Op.Add(key, EncodeAll(fields, values));
        && (ongoing && key != [] ==> Accounts(fields, H, op, old(S()), S()))
        && err == Failure(Apply(fields, H, ongoing, op, old(T())))
        && T() == Outcome(fields, H, scope, ongoing, op, old(T()))
      ensures err == None ==> AddDone(fields, scope, ongoing, key, values, old(Stored(T())), Stored(T()))
      ensures key == [] ==> err == Some(EmptyKey)
      ensures key != [] && old(Whole(H, T(), key)) ==>
        err == if key in old(Stored(T())) then Some(KeyCollision) else None
      ensures old(arrays) <= arrays && fresh(arrays - old(arrays)) && old(world) <= world && fresh(world - old(world))
    {
      hide S, Accounts, Proper, TreeNow, Apart, Stored, EncodeAll, Scopes.Collect, Edit, ValuesOk, AddDone, Whole,
        Placed;
      ProperParts(fields, H, scope, ongoing, S());
      AddEffect(fields, H, scope, ongoing, key, values, T());
      var raw := EncodeAll(fields, values);
      if key == [] {
        return Some(EmptyKey);
      }
      err := Insert(key, raw);
      if err == None && !ongoing {
        Collect();
      }
    }

    /** Set; None stands for Same. */
    method Set(key: Bytes, values: seq<Option<Value>>) returns (err: Option<Error>)
      requires Valid() && AdmitsSome(fields, values)
      modifies this`nodes, this`arrays, world, arrays
      ensures Valid()
      ensures
        var op := Op.Set(key, EncodeSome(fields, values));
        && (ongoing && key != [] ==> Accounts(fields, H, op, old(S()), S()))
        && err == Failure(Apply(fields, H, ongoing, op, old(T())))
        && T() == Outcome(fields, H, scope, ongoing, op, old(T()))
      ensures err == None && key != [] ==>
        SetDone(fields, scope, ongoing, key, values, old(Stored(T())), Stored(T()))
      ensures key != [] && old(Whole(H, T(), key)) ==>
        err == if key in old(Stored(T())) then None else Some(KeyNotFound)
      ensures err.Some? ==> BackTo() == old(BackTo())
      ensures old(arrays) <= arrays && fresh(arrays - old(arrays))
    {
      hide S, Accounts, Proper, TreeNow, Saved, SavedWith, LeafSlice, EncodeSome, Scopes.Collect, Edit, ValuesOk,
        SetDone, Whole, Placed, Stored;
      ProperParts(fields, H, scope, ongoing, S());
      if key != [] {
        SetEffect(fields, H, scope, ongoing, key, values, T());
      }
      ghost var x;
      var change := EncodeSome(fields, values);
      err, x := Change(key, change);
      if err == None && !ongoing {
        Collect();
      }
    }

    /** SetField; it panics if the index is too large, and a negative one is no field. */
    method SetField(key: Bytes, field: int, value: Value) returns (err: Option<Error>)
      requires Valid() && field < |fields| && (0 <= field ==> Admits(fields[field], value))
      modifies this`nodes, this`arrays, world, arrays
      ensures Valid()
      ensures
        var op := Op.Set(key, OneField(fields, field, value));
        && (ongoing && key != [] ==> Accounts(fields, H, op, old(S()), S()))
        && err == Failure(Apply(fields, H, ongoing, op, old(T())))
        && T() == Outcome(fields, H, scope, ongoing, op, old(T()))
      ensures err == None && key != [] ==>
        FieldDone(fields, scope, ongoing, key, field, value, old(Stored(T())), Stored(T()))
      ensures key != [] && old(Whole(H, T(), key)) ==>
        err == if key in old(Stored(T())) then None else Some(KeyNotFound)
      ensures old(arrays) <= arrays && fresh(arrays - old(arrays))
    {
      hide S, Accounts, Proper, TreeNow, SavedTree, Apply, Outcome, LeafSlice, SavedWith, SetDone, FieldDone, Whole,
        Stored;
      var values := seq(|fields|, i requires 0 <= i < |fields| => if i == field then Some(value) else None);
      assert EncodeSome(fields, values) == OneField(fields, field, value);
      ghost var m := Stored(T());
      err := Set(key, values);
      if err == None && key != [] {
        FieldEffect(fields, scope, ongoing, key, values, field, value, m, Stored(T()));
      }
    }

    /** Remove */
    method Remove(key: Bytes) returns (err: Option<Error>)
      requires Valid()
      modifies this`nodes, this`arrays, world
      ensures Valid() && (ongoing ==> BackTo() == old(BackTo()))
      ensures
        var op := Op.Remove(key);
        && (ongoing && key != [] ==> Accounts(fields, H, op, old(S()), S()))
        && err == Failure(Apply(fields, H, ongoing, op, old(T())))
        && T() == Outcome(fields, H, scope, ongoing, op, old(T()))
      ensures err == None && key != [] ==> RemoveDone(scope, ongoing, key, old(Stored(T())), Stored(T()))
      ensures key != [] && old(Whole(H, T(), key)) ==>
        err == if key in old(Stored(T())) then None else Some(KeyNotFound)
      ensures old(arrays) <= arrays && fresh(arrays - old(arrays))
    {
      hide S, Accounts, Proper, TreeNow, Scopes.Collect, Edit, RemoveDone, Whole, Placed, Stored;
      ProperParts(fields, H, scope, ongoing, S());
      if key != [] {
        RemoveEffect(fields, H, scope, ongoing, key, T());
      }
      err := Delete(key);
      if err == None && !ongoing {
        Collect();
      }
    }
  }
}
