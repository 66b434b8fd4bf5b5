/** A tree laid out as a table from paths to nodes, which is how the linked nodes of a
    collection are described; and walking back up from a node to the root. */
module Layout {
  import opened Fields
  import opened Trie
  import opened Mapping
  import opened Canonical

  type Table = map<Path, NodeData>

  const NOWHERE := Leaf(NodeData(false, Zero, [], [], false))

  ghost function Build(m: Table, p: Path): Tree
    decreases BITS - |p|
  {
    if p !in m then NOWHERE
    else if |p| < BITS && p + [false] in m && p + [true] in m then
      Inner(m[p], Build(m, p + [false]), Build(m, p + [true]))
    else Leaf(m[p])
  }

  function Up(p: Path): Path
    requires p != []
  {
    p[..|p| - 1]
  }

  function LastStep(p: Path): bool
    requires p != []
  {
    p[|p| - 1]
  }

  lemma UpLast(p: Path)
    requires p != []
    ensures Up(p) + [LastStep(p)] == p && |Up(p)| == |p| - 1 && Up(p) <= p
  {
  }

  /** Node `r` is node `p` or lies below it. */
  ghost predicate Under(p: Path, r: Path) {
    p <= r
  }

  lemma UnderStep(p: Path, b: bool, r: Path)
    ensures Under(p + [b], r) <==> Under(p, r) && |p| < |r| && r[|p|] == b
  {
    if Under(p, r) && |p| < |r| && r[|p|] == b {
      assert r[..|p| + 1] == p + [b];
    }
    if Under(p + [b], r) {
      assert (p + [b])[|p|] == r[|p|];
      assert p <= p + [b];
    }
  }

  /** Two tables agree at and below a path. */
  ghost predicate SameBelow(m: Table, m': Table, p: Path) {
    forall r {:trigger Under(p, r)} :: Under(p, r) ==> (r in m <==> r in m') && (r in m ==> m[r] == m'[r])
  }

  /** Two tables agree everywhere else. */
  ghost predicate SameElsewhere(m: Table, m': Table, p: Path) {
    forall r {:trigger Under(p, r)} :: !Under(p, r) ==> (r in m <==> r in m') && (r in m ==> m[r] == m'[r])
  }

  lemma {:induction false} BuildFrame(m: Table, m': Table, p: Path)
    requires SameBelow(m, m', p)
    ensures Build(m, p) == Build(m', p)
    decreases BITS - |p|
  {
    assert Under(p, p);
    UnderStep(p, false, p + [false]);
    UnderStep(p, true, p + [true]);
    if p in m && |p| < BITS {
      BelowDeeper(m, m', p, false);
      BelowDeeper(m, m', p, true);
      BuildFrame(m, m', p + [false]);
      BuildFrame(m, m', p + [true]);
    }
  }

  lemma BelowDeeper(m: Table, m': Table, p: Path, b: bool)
    requires SameBelow(m, m', p)
    ensures SameBelow(m, m', p + [b])
  {
    forall r | Under(p + [b], r) ensures Under(p, r) {
      UnderStep(p, b, r);
    }
  }

  /** The tree when node `p` has become `t` and every node above is rebuilt in turn. */
  ghost function Climb(fs: seq<Field>, lazy: bool, op: Op, m: Table, p: Path, t: Tree): Tree
    decreases |p|
  {
    if p == [] then t
    else
      var q, b := Up(p), LastStep(p);
      var d := if q in m then m[q] else NOWHERE.d;
      var s := Build(m, q + [!b]);
      Climb(fs, lazy, op, m, q, Rebuild(fs, lazy, op, |q|, if b then Inner(d, s, t) else Inner(d, t, s)))
  }

  lemma {:induction false} ClimbFrame(fs: seq<Field>, lazy: bool, op: Op, m: Table, m': Table, p: Path, t: Tree)
    requires SameElsewhere(m, m', p)
    ensures Climb(fs, lazy, op, m, p, t) == Climb(fs, lazy, op, m', p, t)
    decreases |p|
  {
    if p != [] {
      UpLast(p);
      var q, b := Up(p), LastStep(p);
      ElsewhereHigher(m, m', p);
      BuildFrame(m, m', q + [!b]);
      var d := if q in m then m[q] else NOWHERE.d;
      var s := Build(m, q + [!b]);
      ClimbFrame(fs, lazy, op, m, m', q, Rebuild(fs, lazy, op, |q|, if b then Inner(d, s, t) else Inner(d, t, s)));
    }
  }

  lemma ElsewhereHigher(m: Table, m': Table, p: Path)
    requires SameElsewhere(m, m', p) && p != []
    ensures SameElsewhere(m, m', Up(p)) && SameBelow(m, m', Up(p) + [!LastStep(p)])
    ensures Up(p) in m <==> Up(p) in m'
    ensures Up(p) in m ==> m[Up(p)] == m'[Up(p)]
  {
    UpLast(p);
    var q, b := Up(p), LastStep(p);
    forall r | !Under(q, r) ensures (r in m <==> r in m') && (r in m ==> m[r] == m'[r]) {
      UnderStep(q, b, r);
      assert !Under(p, r);
    }
    forall r | Under(q + [!b], r) ensures (r in m <==> r in m') && (r in m ==> m[r] == m'[r]) {
      UnderStep(q, b, r);
      UnderStep(q, !b, r);
      assert !Under(p, r);
    }
    assert !Under(p, q);
  }

  /** Going one step down and rebuilding is rebuilding with a new child. */
  lemma ClimbChild(fs: seq<Field>, lazy: bool, op: Op, m: Table, p: Path, b: bool, c: Tree)
    requires Build(m, p).Inner?
    ensures Build(m, p).d == m[p] && Child(Build(m, p), b) == Build(m, p + [b])
    ensures Climb(fs, lazy, op, m, p + [b], c) ==
      Climb(fs, lazy, op, m, p, Rebuild(fs, lazy, op, |p|, WithChild(Build(m, p), b, c)))
  {
    assert Up(p + [b]) == p && LastStep(p + [b]) == b;
  }

  ghost function ClimbResult(fs: seq<Field>, lazy: bool, op: Op, m: Table, p: Path, r: Result): Result {
    match r
    case Ok(t) => Ok(Climb(fs, lazy, op, m, p, t))
    case Err(e) => Err(e)
  }

  /** One turn of a descent: the outcome of the whole call is that of the call on the child. */
  lemma EditDown(fs: seq<Field>, H: Hasher, lazy: bool, op: Op, m: Table, p: Path)
    requires Build(m, p).Inner? && p <= H(op.key)
    requires Build(m, p).left.d.known && Build(m, p).right.d.known && |p| < BITS
    ensures
      var q := p + [H(op.key)[|p|]];
      q <= H(op.key) && q in m
      && ClimbResult(fs, lazy, op, m, p, Edit(fs, H, lazy, op, Build(m, p), |p|))
         == ClimbResult(fs, lazy, op, m, q, EditChild(fs, H, lazy, op, Build(m, q), |q|))
  {
    var b := H(op.key)[|p|];
    var r := EditChild(fs, H, lazy, op, Build(m, p + [b]), |p| + 1);
    ClimbChild(fs, lazy, op, m, p, b, if r.Ok? then r.tree else NOWHERE);
  }

  /** One turn of an ascent: rebuilding the parent in place. */
  lemma ClimbUp(fs: seq<Field>, lazy: bool, op: Op, m: Table, m': Table, p: Path)
    requires p != [] && Build(m, Up(p)).Inner?
    requires SameElsewhere(m, m', Up(p))
    requires Build(m', Up(p)) == Rebuild(fs, lazy, op, |p| - 1, Build(m, Up(p)))
    ensures Climb(fs, lazy, op, m, p, Build(m, p)) == Climb(fs, lazy, op, m', Up(p), Build(m', Up(p)))
  {
    UpLast(p);
    var q, b := Up(p), LastStep(p);
    ClimbChild(fs, lazy, op, m, q, b, Build(m, p));
    assert WithChild(Build(m, q), b, Child(Build(m, q), b)) == Build(m, q);
    ClimbFrame(fs, lazy, op, m, m', q, Build(m', q));
  }

  // ---- changing one node ----

  lemma PutData(m: Table, p: Path, d: NodeData)
    requires p in m
    ensures SameElsewhere(m, m[p := d], p)
    ensures Build(m[p := d], p) == if Build(m, p).Inner? then Inner(d, Build(m, p).left, Build(m, p).right)
      else Leaf(d)
  {
    var m' := m[p := d];
    assert Under(p, p);
    forall b: bool ensures Build(m', p + [b]) == Build(m, p + [b]) {
      assert !Under(p + [b], p);
      BuildFrame(m, m', p + [b]);
    }
  }

  /** A leaf gets two children. */
  ghost function Branch(m: Table, p: Path, d: NodeData, l: NodeData, r: NodeData): Table {
    m[p := d][p + [false] := l][p + [true] := r]
  }

  ghost predicate Prefixed(m: Table) {
    forall r :: r in m && r != [] ==> Up(r) in m
  }

  ghost predicate Childless(m: Table, p: Path) {
    p + [false] !in m && p + [true] !in m
  }

  lemma {:induction false} NothingBelow(m: Table, p: Path, r: Path)
    requires Prefixed(m) && Under(p, r) && Childless(m, p) && r in m
    ensures r == p
    decreases |r|
  {
    if r != p {
      UpLast(r);
      if Up(r) == p {
        assert false;
      } else {
        assert Under(p, Up(r));
        NothingBelow(m, p, Up(r));
      }
    }
  }

  lemma BranchPrefixed(m: Table, p: Path, d: NodeData, l: NodeData, r: NodeData)
    requires Prefixed(m) && p in m && Childless(m, p)
    ensures Prefixed(Branch(m, p, d, l, r))
    ensures SameElsewhere(m, Branch(m, p, d, l, r), p)
    ensures forall b: bool :: Childless(Branch(m, p, d, l, r), p + [b])
  {
    var m' := Branch(m, p, d, l, r);
    assert Up(p + [false]) == p && Up(p + [true]) == p;
    assert Under(p, p) && Under(p, p + [false]) && Under(p, p + [true]);
    forall b: bool, c: bool ensures p + [b] + [c] !in m' {
      assert Under(p, p + [b] + [c]);
      if p + [b] + [c] in m {
        NothingBelow(m, p, p + [b] + [c]);
      }
    }
  }

  lemma BranchBuild(m: Table, p: Path, d: NodeData, l: NodeData, r: NodeData)
    requires Prefixed(m) && p in m && |p| < BITS && Childless(m, p)
    ensures Build(Branch(m, p, d, l, r), p) == Inner(d, Leaf(l), Leaf(r))
  {
    var m' := Branch(m, p, d, l, r);
    BranchPrefixed(m, p, d, l, r);
    assert Childless(m', p + [false]) && Childless(m', p + [true]);
    assert (p + [false])[|p|] != (p + [true])[|p|];
    assert m'[p + [false]] == l && m'[p + [true]] == r && m'[p] == d;
  }

  /** A node loses everything below it. */
  ghost function Cut(m: Table, p: Path): Table {
    map r | r in m && (Under(p, r) ==> r == p) :: m[r]
  }

  lemma CutBuild(m: Table, p: Path, d: NodeData)
    requires p in m && Prefixed(m)
    ensures SameElsewhere(m, Cut(m, p)[p := d], p)
    ensures Build(Cut(m, p)[p := d], p) == Leaf(d)
    ensures Prefixed(Cut(m, p)[p := d])
  {
    var m' := Cut(m, p)[p := d];
    assert Under(p, p) && Under(p, p + [false]);
    assert p + [false] !in m';
    forall r | r in m' && r != [] ensures Up(r) in m' {
      UpLast(r);
      assert Under(p, Up(r)) ==> Under(p, r);
    }
  }

  // ---- what the steps of an operation do to the table ----

  /** What Add, Set and Remove write to the leaf they are looking for. */
  ghost function Written(fs: seq<Field>, op: Op, x: NodeData): NodeData {
    match op
    case Add(k, raw) => x.(key := k, values := raw, lbl := LeafLabel(k, raw))
    case Set(_, change) =>
      var vs := Overwrite(x.values, change);
      x.(values := vs, lbl := LeafLabel(x.key, vs))
    case Remove(_) => PlaceholderData(fs, x.dirty)
  }

  ghost function Wrote(fs: seq<Field>, op: Op, m: Table, p: Path): Table {
    if p in m then m[p := Written(fs, op, m[p])] else m
  }

  ghost function Flagged(m: Table, p: Path): Table {
    if p in m then m[p := m[p].(dirty := true)] else m
  }

  ghost function Relabelled(fs: seq<Field>, m: Table, p: Path): Table {
    m[p := Update(fs, Build(m, p)).d]
  }

  ghost function Lifted(m: Table, p: Path): Table {
    var t := Build(m, p);
    if t.Inner? then Cut(m, p)[p := Lift(t.d, t.left, t.right).d] else m
  }

  /** A leaf with a key sits where there was an internal node. */
  ghost predicate RaisedAt(m: Table, m': Table, p: Path) {
    p in m' && Childless(m', p) && !Childless(m, p) && m'[p].key != []
  }

  function OneKey(k: Bytes): set<Bytes> {
    if k == [] then {} else {k}
  }

  /** The keys of the leaves of `t'` that sit where `t` has internal nodes. */
  ghost function Raised(t: Tree, t': Tree): set<Bytes> {
    if t.Leaf? then {}
    else match t'
      case Leaf(d) => OneKey(d.key)
      case Inner(_, l, r) => Raised(t.left, l) + Raised(t.right, r)
  }

  ghost predicate LaidAt(m: Table, r: Path) {
    r in m ==> |r| <= BITS && (r != [] ==> Up(r) in m && Up(r) + [!LastStep(r)] in m)
  }

  /** Every node but the root has a parent and a sibling. */
  ghost predicate Laid(m: Table) {
    forall r {:trigger LaidAt(m, r)} :: LaidAt(m, r)
  }

  lemma LaidUp(m: Table, r: Path)
    requires Laid(m) && r in m && r != []
    ensures Up(r) in m && Build(m, Up(r)).Inner? && Child(Build(m, Up(r)), LastStep(r)) == Build(m, r)
    ensures |r| <= BITS && Up(r) + [LastStep(r)] == r
  {
    assert LaidAt(m, r);
    UpLast(r);
  }

  lemma {:induction false} RaisedAbove(m: Table, m': Table, r: Path, k: Bytes)
    requires Laid(m) && Laid(m') && r in m && r in m' && k in Raised(Build(m, r), Build(m', r))
    ensures k in Raised(Build(m, []), Build(m', []))
    decreases |r|
  {
    hide Build, Laid;
    if r != [] {
      LaidUp(m, r);
      LaidUp(m', r);
      RaisedAbove(m, m', Up(r), k);
    }
  }

  lemma RaisedLeafIn(m: Table, m': Table, p: Path)
    requires Laid(m) && Laid(m') && RaisedAt(m, m', p)
    ensures m'[p].key in Raised(Build(m, []), Build(m', []))
  {
    var b := p + [false] !in m;
    assert Up(p + [b]) == p && p + [b] in m;
    LaidUp(m, p + [b]);
    assert Build(m', p) == Leaf(m'[p]);
    RaisedAbove(m, m', p, m'[p].key);
  }

  ghost function Parted(fs: seq<Field>, m: Table, p: Path, step: bool): Table {
    if p in m then
      var t := Split(fs, m[p], step);
      Branch(m, p, t.d, t.left.d, t.right.d)
    else m
  }

  // ---- what holds of the whole tree holds below every node of the table ----

  lemma {:induction false} SettledAt(fs: seq<Field>, m: Table, p: Path)
    requires Laid(m) && p in m && Settled(fs, Build(m, []))
    ensures Settled(fs, Build(m, p))
    decreases |p|
  {
    if p != [] {
      LaidUp(m, p);
      SettledAt(fs, m, Up(p));
    }
  }
}
