/** Going down the path of a key and back up to the root, one step at a time: how each step
    of the loops relates the snapshot to the outcome that the whole call has to reach. */
module StoreWalk {
  import opened Fields
  import opened Trie
  import opened Mapping
  import opened Canonical
  import opened Layout
  import opened Store
  import opened StoreShape
  import opened StoreMarks
  import opened StoreSteps
  import opened StoreFlags

  /** Outside a transaction there is nothing to roll back to. */
  ghost predicate Quiet(s: Store, lazy: bool) {
    if lazy then [] in s.orig
    else s.orig == map[] && forall p :: p in s.nodes && s.nodes[p] in s.cells ==> s.cells[s.nodes[p]].backup == None
  }

  /** Known nodes show well-formed values, except those still to be relabelled. */
  ghost predicate Valued(fs: seq<Field>, m: Table, q: Path, n: nat) {
    forall r :: r in m && m[r].known && !(|r| < n && r <= q) ==> ValuesOk(fs, m[r].values)
  }

  /** Both children of each of the first `n` nodes on the path are known. */
  ghost predicate WayKnown(m: Table, q: Path, n: nat) {
    n <= |q| && forall k: nat {:trigger q[..k]} :: k < n ==>
      q[..k] in m && q[..k] + [false] in m && q[..k] + [true] in m
      && m[q[..k] + [false]].known && m[q[..k] + [true]].known
  }

  /** The way back, on the table: the node at depth `d` is done, and rebuilding the nodes
      above it gives the outcome `out`. */
  ghost predicate TableClimb(fs: seq<Field>, lazy: bool, op: Op, m: Table, q: Digest, d: nat, out: Result) {
    && d <= |q| && q[..d] in m && m[q[..d]].known && Prefixed(m)
    && WayKnown(m, q, d) && (!lazy ==> Valued(fs, m, q, d))
    && out == Ok(Climb(fs, lazy, op, m, q[..d], Build(m, q[..d])))
  }

  ghost predicate Climbing(fs: seq<Field>, lazy: bool, op: Op, s: Store, q: Digest, d: nat, out: Result) {
    && Inv(s) && Quiet(s, lazy) && Marks(s, lazy, q, d)
    && TableClimb(fs, lazy, op, TableOf(s), q, d, out)
  }

  ghost predicate Lifts(op: Op, m: Table, p: Path) {
    var t := Build(m, p);
    op.Remove? && p != [] && t.Inner? && Collapsible(t.left, t.right)
  }

  lemma PrefixUp(q: Path, d: nat)
    requires 0 < d <= |q|
    ensures q[..d] != [] && Up(q[..d]) == q[..d - 1] && q[..d] == q[..d - 1] + [q[d - 1]]
  {
  }

  // ---- on the table ----

  lemma TableParent(m: Table, q: Digest, d: nat)
    requires 0 < d <= |q| && WayKnown(m, q, d)
    ensures q[..d - 1] in m && Build(m, q[..d - 1]).Inner? && Build(m, q[..d - 1]).d == m[q[..d - 1]]
    ensures Build(m, q[..d - 1]).left.d.known && Build(m, q[..d - 1]).right.d.known
    ensures Build(m, q[..d - 1]).left.d == m[q[..d - 1] + [false]]
      && Build(m, q[..d - 1]).right.d == m[q[..d - 1] + [true]]
  {
    assert q[..d - 1] + [false] in m;
  }

  lemma WayKnownFrame(m: Table, m': Table, q: Path, n: nat)
    requires WayKnown(m, q, n)
    requires forall r :: r in m && |r| <= n && r != q[..n] ==> r in m' && m'[r].known == m[r].known
    requires q[..n] in m' && m'[q[..n]].known
    ensures WayKnown(m', q, n)
  {
    forall k: nat | k < n
      ensures q[..k] in m' && q[..k] + [false] in m' && q[..k] + [true] in m'
      ensures m'[q[..k] + [false]].known && m'[q[..k] + [true]].known
    {
      assert q[..k] in m && q[..k] + [false] in m && q[..k] + [true] in m;
      assert |q[..k]| == k;
    }
  }

  lemma WayKnownLess(m: Table, q: Path, n: nat, n': nat)
    requires WayKnown(m, q, n) && n' <= n
    ensures WayKnown(m, q, n')
  {
  }

  lemma ValuedUp(fs: seq<Field>, m: Table, m': Table, q: Path, d: nat)
    requires 0 < d <= |q| && Valued(fs, m, q, d) && q[..d - 1] in m'
    requires forall r :: r in m' && r != q[..d - 1] ==> r in m && m'[r] == m[r]
    requires ValuesOk(fs, m'[q[..d - 1]].values)
    ensures Valued(fs, m', q, d - 1)
  {
    forall r | r in m' && m'[r].known && !(|r| < d - 1 && r <= q) ensures ValuesOk(fs, m'[r].values) {
      if |r| < d && r <= q {
        assert r == q[..d - 1];
      }
    }
  }

  lemma ClimbRebuilt(fs: seq<Field>, lazy: bool, op: Op, m: Table, m': Table, q: Digest, d: nat)
    requires 0 < d <= |q| && Build(m, q[..d - 1]).Inner? && SameElsewhere(m, m', q[..d - 1])
    requires Build(m', q[..d - 1]) == Rebuild(fs, lazy, op, d - 1, Build(m, q[..d - 1]))
    ensures Climb(fs, lazy, op, m, q[..d], Build(m, q[..d])) ==
      Climb(fs, lazy, op, m', q[..d - 1], Build(m', q[..d - 1]))
  {
    PrefixUp(q, d);
    ClimbUp(fs, lazy, op, m, m', q[..d]);
  }

  lemma FinishTree(fs: seq<Field>, lazy: bool, op: Op, m: Table, m': Table, p: Path, t: Tree)
    requires p in m && t == Build(m, p) && t.Inner? && !Lifts(op, m, p) && m' == m[p := Finish(fs, lazy, t).d]
    ensures SameElsewhere(m, m', p) && Build(m', p) == Rebuild(fs, lazy, op, |p|, t)
  {
    PutData(m, p, Finish(fs, lazy, t).d);
  }

  lemma FinishWay(fs: seq<Field>, lazy: bool, m: Table, m': Table, q: Digest, d: nat, x: NodeData)
    requires 0 < d <= |q| && WayKnown(m, q, d) && q[..d - 1] in m && m' == m[q[..d - 1] := x] && x.known
      && Prefixed(m)
    requires !lazy ==> Valued(fs, m, q, d) && ValuesOk(fs, x.values)
    ensures WayKnown(m', q, d - 1) && Prefixed(m') && (!lazy ==> Valued(fs, m', q, d - 1))
  {
    WayKnownLess(m, q, d, d - 1);
    WayKnownFrame(m, m', q, d - 1);
    if !lazy {
      ValuedUp(fs, m, m', q, d);
    }
  }

  lemma FinishData(fs: seq<Field>, lazy: bool, t: Tree)
    requires t.Inner? && t.d.known && (!lazy ==> CanUpdate(fs, t))
    ensures Finish(fs, lazy, t).d.known && (!lazy ==> ValuesOk(fs, Finish(fs, lazy, t).d.values))
  {
  }

  lemma TableFinish(fs: seq<Field>, lazy: bool, op: Op, m: Table, m': Table, q: Digest, d: nat, out: Result)
    requires 0 < d && TableClimb(fs, lazy, op, m, q, d, out) && m[q[..d - 1]].known && !Lifts(op, m, q[..d - 1])
    requires m' == m[q[..d - 1] := Finish(fs, lazy, Build(m, q[..d - 1])).d]
    requires !lazy ==> CanUpdate(fs, Build(m, q[..d - 1]))
    ensures TableClimb(fs, lazy, op, m', q, d - 1, out)
  {
    hide Build, Climb, Finish, Rebuild, CanUpdate, WayKnown, Valued, ValuesOk, SameElsewhere, Prefixed, Lifts;
    var p := q[..d - 1];
    var t := Build(m, p);
    TableParent(m, q, d);
    FinishTree(fs, lazy, op, m, m', p, t);
    ClimbRebuilt(fs, lazy, op, m, m', q, d);
    FinishData(fs, lazy, t);
    FinishWay(fs, lazy, m, m', q, d, Finish(fs, lazy, t).d);
  }

  lemma TableLift(fs: seq<Field>, lazy: bool, op: Op, m: Table, m': Table, q: Digest, d: nat, out: Result)
    requires 0 < d && TableClimb(fs, lazy, op, m, q, d, out) && m[q[..d - 1]].known && Lifts(op, m, q[..d - 1])
    requires
      var t := Build(m, q[..d - 1]);
      m' == Cut(m, q[..d - 1])[q[..d - 1] := Lift(t.d, t.left, t.right).d]
    ensures TableClimb(fs, lazy, op, m', q, d - 1, out)
  {
    var p, t := q[..d - 1], Build(m, q[..d - 1]);
    TableParent(m, q, d);
    CutBuild(m, p, Lift(t.d, t.left, t.right).d);
    ClimbRebuilt(fs, lazy, op, m, m', q, d);
    LiftWay(m, m', p, q, d, Lift(t.d, t.left, t.right).d);
    if !lazy {
      LiftValued(fs, m, m', t, p, q, d);
    }
  }

  lemma LiftWay(m: Table, m': Table, p: Path, q: Path, d: nat, x: NodeData)
    requires WayKnown(m, q, d) && 0 < d && p == q[..d - 1] && m' == Cut(m, p)[p := x] && x.known
    ensures WayKnown(m', q, d - 1)
  {
    WayKnownLess(m, q, d, d - 1);
    forall r | r in m && |r| <= d - 1 && r != p ensures r in m' && m'[r].known == m[r].known {
      assert Under(p, r) ==> r == p;
    }
    WayKnownFrame(m, m', q, d - 1);
  }

  lemma LiftValued(fs: seq<Field>, m: Table, m': Table, t: Tree, p: Path, q: Path, d: nat)
    requires WayKnown(m, q, d) && 0 < d && p == q[..d - 1] && t == Build(m, p) && t.Inner?
    requires m' == Cut(m, p)[p := Lift(t.d, t.left, t.right).d] && Valued(fs, m, q, d)
    ensures Valued(fs, m', q, d - 1)
  {
    assert q[..d - 1] + [false] in m && q[..d - 1] + [true] in m;
    assert t.left.d == m[p + [false]] && t.right.d == m[p + [true]];
    assert ValuesOk(fs, t.left.d.values) && ValuesOk(fs, t.right.d.values);
    ValuedUp(fs, m, m', q, d);
  }

  // ---- on the snapshot ----

  /** The parent on the way up. */
  lemma ClimbParent(s: Store, q: Digest, d: nat)
    requires Inv(s) && 0 < d <= |q| && q[..d] in s.nodes && WayKnown(TableOf(s), q, d)
    ensures q[..d - 1] in s.nodes && s.cells[s.nodes[q[..d]]].parent == s.nodes[q[..d - 1]]
  {
    PrefixUp(q, d);
    assert Linked(s, q[..d]);
  }

  lemma WayNodeKnown(m: Table, q: Digest, d: nat)
    requires 1 < d <= |q| && WayKnown(m, q, d)
    ensures q[..d - 1] in m && m[q[..d - 1]].known
  {
    assert q[..d - 2] + [false] in m && q[..d - 2] + [true] in m;
    if q[d - 2] {
      assert q[..d - 1] == q[..d - 2] + [true];
    } else {
      assert q[..d - 1] == q[..d - 2] + [false];
    }
  }

  lemma ParentKnown(s: Store, q: Digest, d: nat)
    requires Allocated(s) && AllLinked(s) && 0 < d <= |q| && WayKnown(TableOf(s), q, d) && q[..d - 1] in s.nodes
    requires s.root in s.cells && s.cells[s.root].known
    ensures s.cells[s.nodes[q[..d - 1]]].known
  {
    if d == 1 {
      assert q[..0] == [];
      assert Linked(s, []);
    } else {
      WayNodeKnown(TableOf(s), q, d);
    }
  }

  lemma ClimbBackup(fs: seq<Field>, op: Op, s: Store, s': Store, q: Digest, d: nat, out: Result)
    requires Climbing(fs, true, op, s, q, d, out) && 0 < d && q[..d - 1] in s.nodes
    requires Inv(s') && Stirs(s, s', {s.nodes[q[..d - 1]]}) && TableOf(s') == TableOf(s)
    ensures Climbing(fs, true, op, s', q, d, out)
  {
    BackupMarks(s, s', q, d);
  }

  lemma BackupMarks(s: Store, s': Store, q: Path, d: nat)
    requires Inv(s) && 0 < d <= |q| && q[..d - 1] in s.nodes && Marks(s, true, q, d)
    requires Allocated(s') && Stirs(s, s', {s.nodes[q[..d - 1]]})
    ensures Marks(s', true, q, d)
  {
    assert Above(s, q, d + 1, s.nodes[q[..d - 1]]);
    StirMarks(s, s', {s.nodes[q[..d - 1]]}, true, q, d);
  }

  lemma CutQuiet(s: Store, p: Path, c: Cell, s': Store, lazy: bool)
    requires Quiet(s, lazy) && Cuts(s, p, c, s') && (!lazy ==> c.backup == None)
    ensures Quiet(s', lazy)
  {
  }

  lemma FlagMarks(s: Store, s': Store, q: Path, d: nat)
    requires Inv(s) && 0 < d <= |q| && q[..d - 1] in s.nodes && Marks(s, true, q, d)
    requires Inv(s') && Stirs(s, s', {s.nodes[q[..d - 1]]}) && s'.cells[s.nodes[q[..d - 1]]].inconsistent
    ensures Marks(s', true, q, d - 1)
  {
    assert Above(s, q, d + 1, s.nodes[q[..d - 1]]);
    StirMarks(s, s', {s.nodes[q[..d - 1]]}, true, q, d);
    FewerMarks(s', true, q, d - 1);
  }

  lemma RelabelMarks(s: Store, s': Store, q: Path, d: nat)
    requires Inv(s) && 0 < d <= |q| && q[..d - 1] in s.nodes && Marks(s, false, q, d)
    requires Inv(s') && Stirs(s, s', {}) && !s'.cells[s.nodes[q[..d - 1]]].lent
    ensures Marks(s', false, q, d - 1)
  {
    StirMarks(s, s', {}, false, q, d);
    FewerMarks(s', false, q, d - 1);
  }

  lemma LiftMarks(s: Store, c: Cell, s': Store, lazy: bool, q: Path, d: nat)
    requires Inv(s) && 0 < d <= |q| && q[..d - 1] in s.nodes && Marks(s, lazy, q, d)
    requires Cuts(s, q[..d - 1], c, s') && c.inconsistent == s.cells[s.nodes[q[..d - 1]]].inconsistent
    requires Inv(s') && (lazy ==> c.backup.Some?)
    ensures Marks(s', lazy, q, d - 1)
  {
    CutMarks(s, q[..d - 1], c, s', lazy, q, d);
    assert Under(q[..d - 1], q[..d - 1]);
    FewerMarks(s', lazy, q, d - 1);
  }

  /** In a transaction the parent is flagged. */
  lemma ClimbFlag(fs: seq<Field>, op: Op, s: Store, s': Store, q: Digest, d: nat, out: Result)
    requires Climbing(fs, true, op, s, q, d, out) && 0 < d && q[..d - 1] in s.nodes
    requires TableOf(s)[q[..d - 1]].known && !Lifts(op, TableOf(s), q[..d - 1])
    requires
      var p := q[..d - 1];
      && Inv(s') && Stirs(s, s', {s.nodes[p]}) && s'.cells[s.nodes[p]].inconsistent
      && TableOf(s') == TableOf(s)[p := TableOf(s)[p].(dirty := true)]
    ensures Climbing(fs, true, op, s', q, d - 1, out)
  {
    TableParent(TableOf(s), q, d);
    TableFinish(fs, true, op, TableOf(s), TableOf(s'), q, d, out);
    FlagMarks(s, s', q, d);
  }

  /** Outside a transaction the parent is relabelled. */
  lemma ClimbRelabel(fs: seq<Field>, op: Op, s: Store, s': Store, q: Digest, d: nat, out: Result)
    requires Climbing(fs, false, op, s, q, d, out) && 0 < d && q[..d - 1] in s.nodes
    requires TableOf(s)[q[..d - 1]].known && !Lifts(op, TableOf(s), q[..d - 1])
    requires CanUpdate(fs, Build(TableOf(s), q[..d - 1]))
    requires
      var p := q[..d - 1];
      && Inv(s') && Stirs(s, s', {}) && !s'.cells[s.nodes[p]].lent
      && TableOf(s') == TableOf(s)[p := Trie.Update(fs, Build(TableOf(s), p)).d]
    ensures Climbing(fs, false, op, s', q, d - 1, out)
  {
    TableParent(TableOf(s), q, d);
    TableFinish(fs, false, op, TableOf(s), TableOf(s'), q, d, out);
    RelabelMarks(s, s', q, d);
  }

  lemma ClimbCanRelabel(fs: seq<Field>, op: Op, s: Store, q: Digest, d: nat, out: Result)
    requires Climbing(fs, false, op, s, q, d, out) && 0 < d && q[..d - 1] in s.nodes && TableOf(s)[q[..d - 1]].known
    ensures
      var p := q[..d - 1];
      && Build(TableOf(s), p).Inner? && CanUpdate(fs, Build(TableOf(s), p))
      && p + [false] in s.nodes && p + [true] in s.nodes
      && !s.cells[s.nodes[p + [false]]].lent && !s.cells[s.nodes[p + [true]]].lent
  {
    var p, m := q[..d - 1], TableOf(s);
    TableParent(m, q, d);
    assert LentAt(s, false, q, d, p + [false], d) && LentAt(s, false, q, d, p + [true], d);
  }

  /** Remove: the parent takes over the one child that is left. */
  lemma ClimbLift(fs: seq<Field>, lazy: bool, op: Op, s: Store, c: Cell, s': Store, q: Digest, d: nat, out: Result)
    requires Climbing(fs, lazy, op, s, q, d, out) && 0 < d && q[..d - 1] in s.nodes
    requires TableOf(s)[q[..d - 1]].known && Lifts(op, TableOf(s), q[..d - 1])
    requires
      var p := q[..d - 1];
      var t := Build(TableOf(s), p);
      && Inv(s') && Cuts(s, p, c, s') && c.inconsistent == s.cells[s.nodes[p]].inconsistent
      && (if lazy then c.backup.Some? else c.backup == None)
      && TableOf(s') == Cut(TableOf(s), p)[p := Lift(t.d, t.left, t.right).d]
    ensures Climbing(fs, lazy, op, s', q, d - 1, out)
  {
    TableLift(fs, lazy, op, TableOf(s), TableOf(s'), q, d, out);
    LiftMarks(s, c, s', lazy, q, d);
    CutQuiet(s, q[..d - 1], c, s', lazy);
  }

  // ---- as seen from the methods ----

  ghost predicate RootKnown(s: Store) {
    s.root in s.cells && s.cells[s.root].known
  }

  lemma ReturnParent(fs: seq<Field>, lazy: bool, op: Op, s: Store, n: Node, c: Cell, q: Digest, d: nat, out: Result)
    requires Climbing(fs, lazy, op, s, q, d, out) && Holds(s, n, q[..d]) && CellAt(s, n, c)
    requires RootKnown(s)
    ensures c.parent == null <==> d == 0
    ensures c.parent != null ==> c.parent in s.cells && s.cells[c.parent].known && Holds(s, c.parent, q[..d - 1])
  {
    if d == 0 {
      assert Linked(s, q[..d]);
    } else {
      ClimbParent(s, q, d);
      ParentKnown(s, q, d);
    }
  }

  lemma ReturnChildren(fs: seq<Field>, lazy: bool, op: Op, s: Store, n: Node, c: Cell, q: Digest, d: nat, out: Result)
    requires Climbing(fs, lazy, op, s, q, d, out) && 0 < d && Holds(s, n, q[..d - 1]) && CellAt(s, n, c)
    ensures c.left != null && c.right != null && c.left in s.cells && c.right in s.cells
    ensures
      var cl, cr := s.cells[c.left], s.cells[c.right];
      Lifts(op, Now(s), q[..d - 1]) <==>
        op.Remove? && d > 1 && cl.left == null && cr.left == null && (cl.key == [] || cr.key == [])
  {
    var p := q[..d - 1];
    TableParent(TableOf(s), q, d);
    NodeShape(s, p);
    NodeShape(s, p + [false]);
    NodeShape(s, p + [true]);
  }

  lemma LiftsBelowRoot(op: Op, m: Table, p: Path)
    requires Lifts(op, m, p)
    ensures p != []
  {
  }

  lemma BackupReturn(fs: seq<Field>, op: Op, s: Store, n: Node, s': Store, q: Digest, d: nat, out: Result)
    requires Climbing(fs, true, op, s, q, d, out) && 0 < d && Holds(s, n, q[..d - 1])
    requires Holds(s', n, q[..d - 1]) && Stirs(s, s', {n}) && Now(s') == Now(s)
    ensures Climbing(fs, true, op, s', q, d, out)
  {
    ClimbBackup(fs, op, s, s', q, d, out);
  }

  lemma FlagReturn(fs: seq<Field>, op: Op, s: Store, n: Node, s': Store, q: Digest, d: nat, out: Result)
    requires Climbing(fs, true, op, s, q, d, out) && 0 < d && Holds(s, n, q[..d - 1])
    requires n in s.cells && s.cells[n].known && !Lifts(op, Now(s), q[..d - 1])
    requires Holds(s', n, q[..d - 1]) && Stirs(s, s', {n}) && n in s'.cells && s'.cells[n].inconsistent
    requires Now(s') == Flagged(Now(s), q[..d - 1])
    ensures Climbing(fs, true, op, s', q, d - 1, out)
  {
    ClimbFlag(fs, op, s, s', q, d, out);
  }

  lemma ReturnCanRelabel(fs: seq<Field>, op: Op, s: Store, n: Node, q: Digest, d: nat, out: Result)
    requires Climbing(fs, false, op, s, q, d, out) && 0 < d && Holds(s, n, q[..d - 1]) && n in s.cells
      && s.cells[n].known
    ensures CanRelabelAt(fs, s, q[..d - 1]) && FreeAt(s, q[..d - 1])
  {
    ClimbCanRelabel(fs, op, s, q, d, out);
  }

  lemma RelabelReturn(fs: seq<Field>, op: Op, s: Store, n: Node, s': Store, q: Digest, d: nat, out: Result)
    requires Climbing(fs, false, op, s, q, d, out) && 0 < d && Holds(s, n, q[..d - 1])
    requires n in s.cells && s.cells[n].known && !Lifts(op, Now(s), q[..d - 1]) && CanRelabelAt(fs, s, q[..d - 1])
    requires Holds(s', n, q[..d - 1]) && Stirs(s, s', {}) && n in s'.cells && !s'.cells[n].lent
    requires Now(s') == Relabelled(fs, Now(s), q[..d - 1])
    ensures Climbing(fs, false, op, s', q, d - 1, out)
  {
    ClimbRelabel(fs, op, s, s', q, d, out);
  }

  lemma ReturnCanLift(fs: seq<Field>, lazy: bool, op: Op, s: Store, n: Node, q: Digest, d: nat, out: Result)
    requires Climbing(fs, lazy, op, s, q, d, out) && 0 < d && Holds(s, n, q[..d - 1]) && Lifts(op, Now(s), q[..d - 1])
    ensures CanLiftAt(s, q[..d - 1]) && (!lazy ==> FreeAt(s, q[..d - 1]))
  {
    var p := q[..d - 1];
    TableParent(TableOf(s), q, d);
    NodeShape(s, p + [false]);
    NodeShape(s, p + [true]);
    assert LentAt(s, lazy, q, d, p + [false], d) && LentAt(s, lazy, q, d, p + [true], d);
  }

  lemma LiftReturn(fs: seq<Field>, lazy: bool, op: Op, s: Store, n: Node, c: Cell, s': Store, q: Digest, d: nat,
      out: Result)
    requires Climbing(fs, lazy, op, s, q, d, out) && 0 < d && Holds(s, n, q[..d - 1]) && n in s.cells
      && s.cells[n].known
    requires Lifts(op, Now(s), q[..d - 1]) && Holds(s', n, q[..d - 1]) && Cuts(s, q[..d - 1], c, s')
    requires c.inconsistent == s.cells[n].inconsistent && c.backup == s.cells[n].backup && (lazy ==> c.backup.Some?)
    requires Now(s') == Lifted(Now(s), q[..d - 1])
    ensures Climbing(fs, lazy, op, s', q, d - 1, out)
  {
    ClimbLift(fs, lazy, op, s, c, s', q, d, out);
  }

  // ---- flags on the way back ----

  lemma MarkDone(fs: seq<Field>, lazy: bool, op: Op, s: Store, n: Node, s': Store, q: Digest, d: nat, out: Result)
    requires Climbing(fs, lazy, op, s, q, d, out) && 0 < d && Holds(s, n, q[..d - 1]) && FlagsOne(s, s', q[..d - 1])
    ensures FlagsBelow(s, q, d) ==> FlagsBelow(s', q, d - 1)
  {
    if FlagsBelow(s, q, d) {
      MarkFlags(s, s', q, d);
    }
  }

  lemma LiftKeepsFlags(fs: seq<Field>, lazy: bool, op: Op, s: Store, n: Node, s1: Store, c: Cell, s': Store,
      q: Digest, d: nat, out: Result)
    requires Climbing(fs, lazy, op, s, q, d, out) && 0 < d && Holds(s, n, q[..d - 1]) && Lifts(op, Now(s), q[..d - 1])
    requires FlagsStay(s, s', q[..d - 1]) && Cuts(s1, q[..d - 1], c, s')
    ensures FlagsBelow(s, q, d) ==> FlagsBelow(s', q, d - 1)
  {
    if FlagsBelow(s, q, d) {
      LiftedLeaf(fs, lazy, op, s, q, d, out);
      var p := q[..d - 1];
      forall b: bool ensures p + [b] !in s'.nodes {
        assert Under(p, p + [b]);
      }
      LiftFlags(s, s', q, d);
      FlagsStart(s', q, d - 1);
    }
  }

  lemma LiftedLeaf(fs: seq<Field>, lazy: bool, op: Op, s: Store, q: Digest, d: nat, out: Result)
    requires Climbing(fs, lazy, op, s, q, d, out) && 0 < d && q[..d - 1] in s.nodes && Lifts(op, Now(s), q[..d - 1])
    ensures q[..d] in s.nodes && s.cells[s.nodes[q[..d]]].left == null
  {
    PrefixUp(q, d);
    NodeShape(s, q[..d - 1]);
    NodeShape(s, q[..d]);
  }
}
