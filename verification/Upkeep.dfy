/** What the operations keep of a tree that need not be fully known. */
module Upkeep {
  import opened Fields
  import opened Trie
  import opened Mapping
  import opened Canonical
  import opened Lazy
  import opened Scopes
  import opened Layout
  import opened Store
  import opened StoreMarks
  import opened StoreFlags
  import opened StoreWalk
  import opened StoreDescent

  /** What holds of the tree of a collection, inside and outside transactions; it need not be
      fully known, and flags may be left over from a rollback, but they are closed toward the root. */
  ghost predicate Upright(fs: seq<Field>, H: Hasher, lazy: bool, t: Tree) {
    && Placed(fs, H, t, []) && (t.d.known ==> t.Inner?) && Closed(t)
    && (if lazy then Repairable(fs, t) else Settled(fs, t))
  }

  ghost predicate ChildrenRepairable(fs: seq<Field>, t: Tree)
    requires t.Inner?
  {
    Repairable(fs, t.left) && Repairable(fs, t.right)
  }

  /** In a transaction, too, whatever goes stale is flagged. */
  lemma {:induction false} EditRepairable(fs: seq<Field>, H: Hasher, op: Op, t: Tree, p: Path)
    requires t.Inner? && Placed(fs, H, t, p) && p <= H(op.key) && OpOk(fs, op) && ChildrenRepairable(fs, t)
    ensures Edit(fs, H, true, op, t, |p|).Ok? ==> Repairable(fs, Edit(fs, H, true, op, t, |p|).tree)
    decreases BITS - |p|, 1
  {
    var step := H(op.key)[|p|];
    if t.left.d.known && t.right.d.known {
      EditChildRepairable(fs, H, op, Child(t, step), p + [step]);
      EditChildPlaced(fs, H, true, op, Child(t, step), p + [step]);
    }
  }

  lemma {:induction false} EditChildRepairable(fs: seq<Field>, H: Hasher, op: Op, c: Tree, p: Path)
    requires Placed(fs, H, c, p) && p <= H(op.key) && OpOk(fs, op) && Repairable(fs, c) && c.d.known
    ensures EditChild(fs, H, true, op, c, |p|).Ok? ==> Repairable(fs, EditChild(fs, H, true, op, c, |p|).tree)
    decreases BITS - |p|, 2
  {
    if c.Inner? {
      EditRepairable(fs, H, op, c, p);
    } else if op.Add? && c.d.key != [] && c.d.key != op.key && |p| < BITS {
      SplitPlaced(fs, H, c.d, p);
      EditRepairable(fs, H, op, Split(fs, c.d, H(c.d.key)[|p|]), p);
    }
  }

  /** Flags stay closed toward the root; outside transactions no call sets or clears one. */
  lemma {:induction false} EditClosed(fs: seq<Field>, H: Hasher, lazy: bool, op: Op, t: Tree, depth: nat)
    requires t.Inner? && Closed(t)
    ensures Edit(fs, H, lazy, op, t, depth).Ok? ==>
      var t' := Edit(fs, H, lazy, op, t, depth).tree;
      Closed(t') && (!lazy ==> t'.d.dirty == t.d.dirty)
    decreases BITS - depth, 1
  {
    if depth < BITS {
      var step := H(op.key)[depth];
      EditChildClosed(fs, H, lazy, op, Child(t, step), depth + 1);
    }
  }

  lemma {:induction false} EditChildClosed(fs: seq<Field>, H: Hasher, lazy: bool, op: Op, c: Tree, depth: nat)
    requires Closed(c)
    ensures EditChild(fs, H, lazy, op, c, depth).Ok? ==>
      var c' := EditChild(fs, H, lazy, op, c, depth).tree;
      Closed(c') && (!lazy ==> c'.d.dirty == c.d.dirty)
    decreases BITS - depth, 2
  {
    if c.Inner? {
      EditClosed(fs, H, lazy, op, c, depth);
    } else if op.Add? && c.d.key != [] && c.d.key != op.key && depth < BITS {
      EditClosed(fs, H, lazy, op, Split(fs, c.d, H(c.d.key)[depth]), depth);
    }
  }

  lemma EditRootInner(fs: seq<Field>, H: Hasher, lazy: bool, op: Op, t: Tree)
    requires t.Inner?
    ensures Edit(fs, H, lazy, op, t, 0).Ok? ==> Edit(fs, H, lazy, op, t, 0).tree.Inner?
  {
  }

  lemma ApplyUpright(fs: seq<Field>, H: Hasher, lazy: bool, op: Op, t: Tree)
    requires Upright(fs, H, lazy, t) && OpOk(fs, op)
    ensures Upright(fs, H, lazy, After(fs, H, lazy, op, t))
  {
    if t.Inner? {
      EditRootInner(fs, H, lazy, op, t);
      EditClosed(fs, H, lazy, op, t, 0);
      EditPlaced(fs, H, lazy, op, t, []);
      if lazy {
        EditRepairable(fs, H, op, t, []);
      } else {
        EditSettled(fs, H, op, t, []);
      }
    }
  }

  lemma {:induction false} CollectAtUpright(fs: seq<Field>, H: Hasher, s: Scope, t: Tree, p: Path)
    requires ScopeOk(s) && Placed(fs, H, t, p) && Settled(fs, t)
    ensures
      var t' := CollectAt(s, t, p);
      && Placed(fs, H, t', p) && Settled(fs, t')
      && t'.d.lbl == t.d.lbl && (t'.d.known ==> t'.d == t.d)
  {
    if t.Inner? && t.d.known {
      CollectAtUpright(fs, H, s, t.left, p + [false]);
      CollectAtUpright(fs, H, s, t.right, p + [true]);
    }
  }

  lemma {:induction false} CollectAtClosed(s: Scope, t: Tree, p: Path)
    requires ScopeOk(s) && Closed(t)
    ensures Closed(CollectAt(s, t, p)) && CollectAt(s, t, p).d.dirty == t.d.dirty
  {
    if t.Inner? && t.d.known {
      CollectAtClosed(s, t.left, p + [false]);
      CollectAtClosed(s, t.right, p + [true]);
    }
  }

  lemma CollectUpright(fs: seq<Field>, H: Hasher, s: Scope, t: Tree)
    requires ScopeOk(s) && Upright(fs, H, false, t)
    ensures Upright(fs, H, false, Collect(s, t)) && Collect(s, t).d.lbl == t.d.lbl
  {
    if t.Inner? {
      assert [] + [false] == [false] && [] + [true] == [true];
      CollectAtUpright(fs, H, s, t.left, [false]);
      CollectAtUpright(fs, H, s, t.right, [true]);
      CollectAtClosed(s, t.left, [false]);
      CollectAtClosed(s, t.right, [true]);
    }
  }

  lemma {:induction false} CollectAtClean(s: Scope, t: Tree, p: Path)
    requires ScopeOk(s) && Clean(t)
    ensures Clean(CollectAt(s, t, p))
  {
    if t.Inner? && t.d.known {
      CollectAtClean(s, t.left, p + [false]);
      CollectAtClean(s, t.right, p + [true]);
    }
  }

  lemma CollectClean(s: Scope, t: Tree)
    requires ScopeOk(s) && Clean(t)
    ensures Clean(Collect(s, t))
  {
    if t.Inner? {
      CollectAtClean(s, t.left, [false]);
      CollectAtClean(s, t.right, [true]);
    }
  }

  // ---- the start and the end of the walk ----

  lemma MarksAtRoot(s: Store, lazy: bool, q: Path, q': Path)
    requires Allocated(s) && Marks(s, lazy, q, 0)
    ensures Marks(s, lazy, q', 0)
  {
    var n: nat := 0;
    forall p, k: nat ensures ReachAt(s, s.nodes, lazy, q', n, p, k) {
      assert ReachAt(s, s.nodes, lazy, q, n, p, k);
    }
    forall p, k: nat ensures ReachAt(s, s.orig, lazy, q', n, p, k) {
      assert ReachAt(s, s.orig, lazy, q, n, p, k);
    }
    forall r, k: nat ensures LentAt(s, lazy, q', n, r, k) {
      assert LentAt(s, lazy, q, n, r, k);
    }
  }

  lemma TableLaid(s: Store)
    requires Inv(s)
    ensures Laid(TableOf(s))
  {
    forall r ensures LaidAt(TableOf(s), r) {
      if r in s.nodes {
        assert Linked(s, r);
        if r != [] {
          UpLast(r);
          assert Linked(s, Up(r));
        }
      }
    }
  }

  lemma SettledValued(fs: seq<Field>, s: Store, q: Path, n: nat)
    requires Inv(s) && Settled(fs, TreeOf(s))
    ensures Valued(fs, TableOf(s), q, n)
  {
    var m := TableOf(s);
    TableLaid(s);
    forall r | r in m && m[r].known ensures ValuesOk(fs, m[r].values) {
      SettledAt(fs, m, r);
      NodeShape(s, r);
    }
  }

  lemma DescentStart(fs: seq<Field>, H: Hasher, lazy: bool, op: Op, s: Store)
    requires Inv(s) && Quiet(s, lazy) && Marks(s, lazy, [], 0)
    requires Upright(fs, H, lazy, TreeOf(s)) && TreeOf(s).d.known && OpOk(fs, op)
    requires op.Add? ==> Apart(H, Stored(TreeOf(s)), op.key)
    ensures Descending(fs, H, lazy, op, s, 0, Edit(fs, H, lazy, op, TreeOf(s), 0))
  {
    MarksAtRoot(s, lazy, [], H(op.key));
    MoreMarks(s, lazy, H(op.key), 0, 1);
    hide Marks, Quiet;
    TablePrefixed(s);
    NodeShape(s, []);
    if !lazy {
      SettledValued(fs, s, H(op.key), 1);
    }
    hide Inv;
    TableStart(fs, H, lazy, op, TableOf(s));
  }

  lemma TableStart(fs: seq<Field>, H: Hasher, lazy: bool, op: Op, m: Table)
    requires [] in m && Prefixed(m) && Placed(fs, H, Build(m, []), []) && m[[]].known && Build(m, []).Inner?
      && OpOk(fs, op)
    requires (op.Add? ==> Apart(H, Stored(Build(m, [])), op.key)) && (!lazy ==> Valued(fs, m, H(op.key), 1))
    ensures TableDescend(fs, H, lazy, op, m, 0, Edit(fs, H, lazy, op, Build(m, []), 0))
  {
    assert H(op.key)[..0] == [];
  }

  lemma ClimbTop(fs: seq<Field>, lazy: bool, op: Op, s: Store, q: Digest, out: Result)
    requires Climbing(fs, lazy, op, s, q, 0, out)
    ensures out == Ok(TreeOf(s)) && Marks(s, lazy, [], 0)
  {
    assert q[..0] == [];
    MarksAtRoot(s, lazy, q, []);
  }

  /** The change of a single value; an index that is no field changes nothing. */
  ghost function OneField(fs: seq<Field>, field: int, value: Value): seq<Option<Bytes>>
    requires 0 <= field < |fs| ==> Admits(fs[field], value)
  {
    seq(|fs|, i requires 0 <= i < |fs| => if i == field then Some(Encode(fs[i], value)) else None)
  }

  /** What a call returns. */
  ghost function Failure(r: Result): Option<Error> {
    match r
    case Ok(_) => None
    case Err(e) => Some(e)
  }

  /** What a call leaves: outside a transaction, success is followed by garbage collection. */
  ghost function Outcome(fs: seq<Field>, H: Hasher, scope: Scope, lazy: bool, op: Op, t: Tree): Tree
    requires ScopeOk(scope)
  {
    match Apply(fs, H, lazy, op, t)
    case Ok(t') => if lazy then t' else Collect(scope, t')
    case Err(_) => t
  }

  // ---- as seen from the methods ----

  ghost function TreeNow(s: Store): Tree {
    Build(Now(s), [])
  }

  /** The invariant of a collection. */
  ghost predicate Proper(fs: seq<Field>, H: Hasher, scope: Scope, lazy: bool, s: Store) {
    && Inv(s) && ScopeOk(scope) && Quiet(s, lazy) && Marks(s, lazy, [], 0)
    && Upright(fs, H, lazy, TreeNow(s)) && (lazy ==> FlagsClosed(s))
  }

  lemma ProperRoot(fs: seq<Field>, H: Hasher, scope: Scope, lazy: bool, s: Store)
    requires Proper(fs, H, scope, lazy, s)
    ensures Holds(s, s.root, []) && s.root in s.cells && TreeNow(s).d == DataOf(s, s.root)
    ensures s.cells[s.root].values in s.slices && TreeNow(s).d.known == s.cells[s.root].known
  {
    NodeShape(s, []);
    assert Linked(s, []);
  }

  lemma ProperParts(fs: seq<Field>, H: Hasher, scope: Scope, lazy: bool, s: Store)
    requires Proper(fs, H, scope, lazy, s)
    ensures ScopeOk(scope) && (lazy ==> FlagsClosed(s)) && Placed(fs, H, TreeNow(s), [])
  {
  }

  lemma ProperUpright(fs: seq<Field>, H: Hasher, scope: Scope, lazy: bool, s: Store)
    requires Proper(fs, H, scope, lazy, s)
    ensures ScopeOk(scope) && Upright(fs, H, lazy, TreeNow(s))
  {
  }

  lemma EditStart(fs: seq<Field>, H: Hasher, scope: Scope, lazy: bool, op: Op, s: Store)
    requires Proper(fs, H, scope, lazy, s) && RootKnown(s) && OpOk(fs, op)
    requires op.Add? ==> op.key != [] && Apart(H, Stored(TreeNow(s)), op.key)
    ensures Descending(fs, H, lazy, op, s, 0, Apply(fs, H, lazy, op, TreeNow(s)))
    ensures Holds(s, s.root, H(op.key)[..0])
  {
    ProperRoot(fs, H, scope, lazy, s);
    assert H(op.key)[..0] == [];
    DescentStart(fs, H, lazy, op, s);
  }

  lemma EditUnknown(fs: seq<Field>, H: Hasher, scope: Scope, lazy: bool, op: Op, s: Store)
    requires Proper(fs, H, scope, lazy, s) && s.root in s.cells && !s.cells[s.root].known
      && (op.Add? ==> op.key != [])
    ensures Apply(fs, H, lazy, op, TreeNow(s)) == Err(UnknownSubtree)
  {
    ProperRoot(fs, H, scope, lazy, s);
  }

  lemma EditDone(fs: seq<Field>, H: Hasher, scope: Scope, lazy: bool, op: Op, s: Store, s': Store, out: Result)
    requires Proper(fs, H, scope, lazy, s) && RootKnown(s) && OpOk(fs, op) && (op.Add? ==> op.key != [])
    requires out == Apply(fs, H, lazy, op, TreeNow(s)) && Climbing(fs, lazy, op, s', H(op.key), 0, out)
    requires lazy ==> FlagsClosed(s')
    ensures out == Ok(TreeNow(s')) && Proper(fs, H, scope, lazy, s')
  {
    ProperRoot(fs, H, scope, lazy, s);
    ClimbTop(fs, lazy, op, s', H(op.key), out);
    ApplyUpright(fs, H, lazy, op, TreeNow(s));
  }
}
