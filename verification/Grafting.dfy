/** Verify: a proof is checked against the root label, and the nodes it shows are added to the
    tree of a collection that does not know them. */
module Grafting {
  import opened Fields
  import opened Trie
  import opened Mapping
  import opened Canonical
  import opened Lazy
  import opened Scopes
  import opened Layout
  import opened Store
  import opened StoreShape
  import opened StoreMarks
  import opened StoreSteps
  import opened StoreWalk
  import opened StoreSweep
  import opened StoreEnd
  import opened Upkeep
  import opened Collections
  import opened Getters
  import opened Creation
  import opened Proofs
  import opened Verifiers

  // ---- replacing a subtree ----

  ghost function PlugIn(t: Tree, p: Path, x: Tree): Tree
    decreases |p|
  {
    if p == [] then x
    else if t.Leaf? then t
    else WithChild(t, p[0], PlugIn(Child(t, p[0]), p[1..], x))
  }

  /** The path leads through internal nodes. */
  ghost predicate Leads(t: Tree, p: Path)
    decreases |p|
  {
    p == [] || (t.Inner? && Leads(Child(t, p[0]), p[1..]))
  }

  lemma {:induction false} PlugTwice(t: Tree, p: Path, x: Tree, y: Tree)
    requires Leads(t, p)
    ensures PlugIn(PlugIn(t, p, x), p, y) == PlugIn(t, p, y) && Leads(PlugIn(t, p, x), p)
    decreases |p|
  {
    if p != [] {
      PlugTwice(Child(t, p[0]), p[1..], x, y);
    }
  }

  lemma {:induction false} PlugBelow(t: Tree, p: Path, b: bool, g: Tree, y: Tree)
    requires Leads(t, p) && g.Inner?
    ensures PlugIn(PlugIn(t, p, g), p + [b], y) == PlugIn(t, p, WithChild(g, b, y))
    ensures Leads(PlugIn(t, p, g), p + [b])
    decreases |p|
  {
    if p == [] {
      assert (p + [b])[1..] == [];
    } else {
      assert (p + [b])[1..] == p[1..] + [b];
      PlugBelow(Child(t, p[0]), p[1..], b, g, y);
    }
  }

  /** When only the subtree at `p` changes, it is replaced in the tree. */
  lemma {:induction false} BuildPlug(m: Table, m': Table, r: Path, p: Path)
    requires r <= p && p in m' && SameElsewhere(m, m', p) && Leads(Build(m, r), p[|r|..])
    ensures Build(m', r) == PlugIn(Build(m, r), p[|r|..], Build(m', p))
    decreases |p| - |r|
  {
    if |r| == |p| {
      assert r == p;
    } else {
      var b := p[|r|];
      var r' := r + [b];
      assert p[|r|..][1..] == p[|r'|..] && r' <= p;
      BuildPlug(m, m', r', p);
      PlugStep(m, m', r, b, p);
    }
  }

  lemma PlugStep(m: Table, m': Table, r: Path, b: bool, p: Path)
    requires r + [b] <= p && p in m' && SameElsewhere(m, m', p) && Build(m, r).Inner?
    ensures Build(m', r) == WithChild(Build(m, r), b, Build(m', r + [b]))
  {
    assert p[|r|] == b;
    forall x | Under(r + [!b], x) ensures (x in m <==> x in m') && (x in m ==> m[x] == m'[x]) {
      assert x[|r|] == !b;
      assert !Under(p, x);
    }
    BuildFrame(m, m', r + [!b]);
    assert !Under(p, r);
    assert Under(r + [!b], r + [!b]);
    if p != r + [b] {
      assert !Under(p, r + [b]);
    }
  }

  // ---- one turn of the loop ----

  /** What the full collection has at path `p`. */
  ghost predicate Genuine(fs: seq<Field>, H: Hasher, f: Tree, p: Path) {
    Settled(fs, f) && Clean(f) && FullyKnown(f) && Placed(fs, H, f, p)
  }

  /** The cursor is at a known tree `v` that agrees with the full collection's `f` and with the
      dump `cur`; the other steps continue from there. */
  ghost predicate Along(fs: seq<Field>, H: Hasher, v: Tree, f: Tree, p: Path, q: Digest, cur: Dump,
      steps: seq<Step>) {
    && p <= q && View(v, f) && v.d.known && Genuine(fs, H, f, p) && DumpConsistent(cur) && cur.lbl == f.d.lbl
    && ConsistentFrom(q, cur, steps, |p|)
  }

  lemma GenuineChild(fs: seq<Field>, H: Hasher, f: Tree, p: Path, b: bool)
    requires Genuine(fs, H, f, p) && f.Inner?
    ensures Genuine(fs, H, Child(f, b), p + [b])
  {
  }

  /** What the loop finds at the cursor: two children, and dumps that are those of the full
      collection. */
  lemma AlongShows(fs: seq<Field>, H: Hasher, v: Tree, f: Tree, p: Path, q: Digest, cur: Dump, steps: seq<Step>)
    requires Along(fs, H, v, f, p, q, cur, steps) && steps != []
    ensures v.Inner? && f.Inner? && |p| < BITS && View(v.left, f.left) && View(v.right, f.right)
    ensures DumpConsistent(steps[0].left) && steps[0].left.lbl == f.left.d.lbl && Genuine(fs, H, f.left, p + [false])
    ensures DumpConsistent(steps[0].right) && steps[0].right.lbl == f.right.d.lbl
      && Genuine(fs, H, f.right, p + [true])
  {
    DumpIsNode(fs, cur, f);
    GenuineChild(fs, H, f, p, false);
    GenuineChild(fs, H, f, p, true);
  }

  lemma AlongTurn(fs: seq<Field>, H: Hasher, v: Tree, f: Tree, p: Path, q: Digest, cur: Dump, steps: seq<Step>)
    requires Along(fs, H, v, f, p, q, cur, steps) && steps != []
    ensures v.Inner? && f.Inner? && |p| < BITS
    ensures
      var b, g := q[|p|], GraftStep(steps[0], v);
      && Along(fs, H, Child(g, b), Child(f, b), p + [b], q, Side(steps[0], b), steps[1..])
      && Graft(q, v, steps, |p|) == WithChild(g, b, Graft(q, Child(g, b), steps[1..], |p| + 1))
  {
    AlongShows(fs, H, v, f, p, q, cur, steps);
    var b := q[|p|];
    ToView(fs, H, Side(steps[0], b), Child(v, b), Child(f, b), p + [b]);
  }

  ghost predicate Walking(fs: seq<Field>, H: Hasher, s: Store, n: Node, p: Path, f: Tree,
                          q: Digest, cur: Dump, steps: seq<Step>, out: Tree) {
    && Still(s) && Holds(s, n, p) && Along(fs, H, Build(Now(s), p), f, p, q, cur, steps) && Leads(TreeNow(s), p)
    && out == PlugIn(TreeNow(s), p, Graft(q, Build(Now(s), p), steps, |p|))
  }

  lemma WalkingEnds(fs: seq<Field>, H: Hasher, s: Store, n: Node, p: Path, f: Tree, q: Digest, cur: Dump, out: Tree)
    requires Walking(fs, H, s, n, p, f, q, cur, [], out)
    ensures out == TreeNow(s)
  {
    BuildPlug(Now(s), Now(s), [], p);
  }

  lemma WalkingShows(fs: seq<Field>, H: Hasher, s: Store, n: Node, p: Path, f: Tree, q: Digest, cur: Dump,
      steps: seq<Step>, out: Tree)
    requires Walking(fs, H, s, n, p, f, q, cur, steps, out) && steps != []
    ensures Build(Now(s), p).Inner? && f.Inner? && |p| < BITS
    ensures View(Build(Now(s), p + [false]), f.left) && View(Build(Now(s), p + [true]), f.right)
    ensures DumpConsistent(steps[0].left) && steps[0].left.lbl == f.left.d.lbl && Genuine(fs, H, f.left, p + [false])
    ensures DumpConsistent(steps[0].right) && steps[0].right.lbl == f.right.d.lbl
      && Genuine(fs, H, f.right, p + [true])
  {
    AlongShows(fs, H, Build(Now(s), p), f, p, q, cur, steps);
    hide Along, Genuine, View;
    NodeShape(s, p);
  }

  lemma WalkingTurn(fs: seq<Field>, H: Hasher, s: Store, n: Node, p: Path, f: Tree, q: Digest, cur: Dump,
      steps: seq<Step>, out: Tree,
                    s1: Store, s2: Store, x: Node)
    requires Walking(fs, H, s, n, p, f, q, cur, steps, out) && steps != [] && |p| < BITS
    requires Still(s1) && Confined(s, p + [false], s1)
    requires Build(Now(s1), p + [false]) == To(steps[0].left, Build(Now(s), p + [false]))
    requires Still(s2) && Confined(s1, p + [true], s2)
    requires Build(Now(s2), p + [true]) == To(steps[0].right, Build(Now(s1), p + [true]))
    requires Holds(s2, x, p + [q[|p|]])
    ensures f.Inner? && Walking(fs, H, s2, x, p + [q[|p|]], Child(f, q[|p|]), q, Side(steps[0], q[|p|]), steps[1..],
      out)
  {
    hide Along, Inv, Confined, Still, Holds, Now, Build, TreeNow, Leads, PlugIn, Graft, GraftStep, To;
    var b, v := q[|p|], Build(Now(s), p);
    AlongTurn(fs, H, v, f, p, q, cur, steps);
    WalkingJoin(s, n, p, b, s1, s2, steps[0]);
    var g := Build(Now(s2), p);
    WalkingPlug(s, p, b, s2, g, Graft(q, Child(g, b), steps[1..], |p| + 1));
  }

  lemma WalkingJoin(s: Store, n: Node, p: Path, b: bool, s1: Store, s2: Store, step: Step)
    requires Still(s) && Holds(s, n, p) && Build(Now(s), p).Inner?
    requires Still(s1) && Confined(s, p + [false], s1)
    requires Build(Now(s1), p + [false]) == To(step.left, Build(Now(s), p + [false]))
    requires Still(s2) && Confined(s1, p + [true], s2)
    requires Build(Now(s2), p + [true]) == To(step.right, Build(Now(s1), p + [true]))
    ensures Inv(s) && Inv(s2) && Confined(s, p, s2) && p in s2.nodes
    ensures Build(Now(s2), p) == GraftStep(step, Build(Now(s), p)) && Build(Now(s2), p).Inner?
    ensures Build(Now(s2), p + [b]) == Child(Build(Now(s2), p), b)
  {
    NodeShape(s, p);
    JoinTree(s, n, p, s1, s2);
    NodeShape(s2, p);
  }

  lemma WalkingPlug(s: Store, p: Path, b: bool, s2: Store, g: Tree, y: Tree)
    requires Inv(s) && Inv(s2) && Confined(s, p, s2) && p in s2.nodes && Leads(TreeNow(s), p)
      && g == Build(Now(s2), p) && g.Inner?
    ensures PlugIn(TreeNow(s), p, WithChild(g, b, y)) == PlugIn(TreeNow(s2), p + [b], y)
    ensures Leads(TreeNow(s2), p + [b])
  {
    ConfinedTable(s, p, s2);
    BuildPlug(Now(s), Now(s2), [], p);
    PlugBelow(TreeNow(s), p, b, g, y);
  }

  // ---- Verify ----

  /** Writing a dump onto a node that shows the same label. */
  method WriteDump(c: Collection, n: Node, d: Dump, ghost p: Path, ghost f: Tree)
    requires Still(c.S()) && Holds(c.S(), n, p) && View(Build(Now(c.S()), p), f)
    requires Genuine(c.fields, c.H, f, p) && DumpConsistent(d) && d.lbl == f.d.lbl
    modifies c`arrays, c`world, c`nodes, n
    ensures Still(c.S()) && Holds(c.S(), n, p) && Confined(old(c.S()), p, c.S())
    ensures Build(Now(c.S()), p) == To(d, old(Build(Now(c.S()), p)))
    ensures old(c.arrays) <= c.arrays && fresh(c.arrays - old(c.arrays)) && old(c.world) <= c.world
      && fresh(c.world - old(c.world))
  {
    hide c.S, Still, Holds, Now, Build, Confined, Genuine, View, DumpConsistent;
    DumpShown(c, n, d, p, f);
    if !n.known && n.lbl == d.lbl {
      if DumpLeaf(d) {
        c.WriteLeaf(n, true, d.lbl, d.key, d.values, p);
      } else {
        c.Open(n, true, d.lbl, n.key, d.values, d.left, d.right, p);
      }
    } else {
      StillSame(c.S(), p);
    }
  }

  lemma DumpShown(c: Collection, n: Node, d: Dump, p: Path, f: Tree)
    requires Still(c.S()) && Holds(c.S(), n, p) && View(Build(Now(c.S()), p), f)
    requires Genuine(c.fields, c.H, f, p) && DumpConsistent(d) && d.lbl == f.d.lbl
    ensures n in c.world
    ensures
      var v := Build(Now(c.S()), p);
      v.d.known == n.known && v.d.lbl == n.lbl && v.d.key == n.key && v.d.dirty == n.inconsistent
    ensures !n.known ==> n.left == null && Build(Now(c.S()), p).Leaf? && (!DumpLeaf(d) ==> |p| < BITS)
  {
    HoldsCell(c.S(), n, p);
    c.Shown(n);
    NodeShape(c.S(), p);
    DumpIsNode(c.fields, d, f);
  }

  lemma {:induction false} ViewSettled(fs: seq<Field>, v: Tree, f: Tree)
    requires View(v, f) && Settled(fs, f)
    ensures Settled(fs, v)
  {
    if v.Inner? {
      ViewSettled(fs, v.left, f.left);
      ViewSettled(fs, v.right, f.right);
    }
  }

  lemma ViewUpright(fs: seq<Field>, H: Hasher, v: Tree, f: Tree)
    requires View(v, f) && Full(fs, H, f)
    ensures Upright(fs, H, false, v)
  {
    ViewSettled(fs, v, f);
    ViewParts(fs, H, v, f, []);
    CleanClosed(v);
  }

  lemma WalkingStarts(fs: seq<Field>, H: Hasher, v: Tree, s: Store, n: Node, f: Tree, pf: Proof)
    requires Still(s) && Holds(s, n, []) && View(v, f) && Full(fs, H, f) && Accepts(H, v, pf)
    requires TreeNow(s) == To(pf.root, v)
    ensures Walking(fs, H, s, n, [], f, H(pf.key), pf.root, pf.steps, Verify(H, v, pf))
  {
    ToView(fs, H, pf.root, v, f, []);
  }

  lemma WalkingStill(fs: seq<Field>, H: Hasher, s: Store, n: Node, p: Path, f: Tree, q: Digest, cur: Dump,
      steps: seq<Step>, out: Tree)
    requires Walking(fs, H, s, n, p, f, q, cur, steps, out)
    ensures Still(s) && Holds(s, n, p) && |p| <= BITS
  {
  }

  /** The children of a node outside a transaction, as the loop sees them. */
  lemma NodeStill(c: Collection, n: Node, p: Path)
    requires Still(c.S()) && Holds(c.S(), n, p) && Build(Now(c.S()), p).Inner?
    ensures n in c.world && CellAt(c.S(), n, n.Snapshot()) && n.left != null && n.right != null && n.left in c.world
      && n.right in c.world
    ensures Holds(c.S(), n.left, p + [false]) && Holds(c.S(), n.right, p + [true])
  {
    hide Still, Holds, Now, Build;
    c.StillShown(n, p);
    HoldsCell(c.S(), n, p);
    c.Shown(n);
  }

  /** One turn of the loop of Verify. */
  method GraftChildren(c: Collection, n: Node, step: Step, right: bool, ghost p: Path, ghost f: Tree, ghost q: Digest,
                       ghost cur: Dump, ghost steps: seq<Step>, ghost out: Tree)
      returns (child: Node)
    requires steps != [] && steps[0] == step && |p| < BITS && right == q[|p|]
    requires Walking(c.fields, c.H, c.S(), n, p, f, q, cur, steps, out)
    modifies c`arrays, c`world, c`nodes, c.world
    ensures f.Inner? && Walking(c.fields, c.H, c.S(), child, p + [right], Child(f, right), q, Side(step, right),
      steps[1..], out)
    ensures old(c.arrays) <= c.arrays && fresh(c.arrays - old(c.arrays)) && old(c.world) <= c.world
      && fresh(c.world - old(c.world))
  {
    hide c.S, CellAt, Inv, Walking, Still, Holds, Now, Build, Confined, Genuine, View, DumpConsistent, To;
    ghost var s := c.S();
    WalkingStill(c.fields, c.H, s, n, p, f, q, cur, steps, out);
    WalkingShows(c.fields, c.H, s, n, p, f, q, cur, steps, out);
    NodeStill(c, n, p);
    ghost var x := n.Snapshot();
    WriteDump(c, n.left, step.left, p + [false], f.left);
    ghost var s1 := c.S();
    SiblingHolds(s, n, p, x, s1);
    c.Shown(n);
    StillInv(s);
    StillInv(s1);
    ConfinedSibling(s, p, false, s1);
    WriteDump(c, n.right, step.right, p + [true], f.right);
    ghost var s2 := c.S();
    StillInv(s2);
    JoinTree(s, n, p, s1, s2);
    NodeStill(c, n, p);
    if right {
      child := n.right;
    } else {
      child := n.left;
    }
    WalkingTurn(c.fields, c.H, s, n, p, f, q, cur, steps, out, s1, s2, child);
  }

  /** Verify; it panics if the root is flagged. The root label is that of a full collection `f`. */
  method VerifyProof(c: Collection, pf: Proof, ghost f: Tree) returns (accepted: bool)
    requires c.Valid() && !c.ongoing && !c.root.inconsistent
    requires View(c.T(), f) && Full(c.fields, c.H, f)
    modifies c`arrays, c`world, c`nodes, c.world
    ensures accepted == Accepts(c.H, old(c.T()), pf)
    ensures c.T() == Verify(c.H, old(c.T()), pf)
    ensures c.Valid() && View(c.T(), f) && View(old(c.T()), c.T())
    ensures accepted ==> Knows(c.T(), c.H(pf.key), 0)
    ensures old(c.arrays) <= c.arrays && fresh(c.arrays - old(c.arrays)) && old(c.world) <= c.world
      && fresh(c.world - old(c.world))
  {
    hide c.S, Proper, Still, Holds, Now, Build, TreeNow, Consistent, View, Full, Knows, Walking, Upright;
    ghost var v := c.T();
    VerifyStarts(c, f);
    if pf.root.lbl != c.root.lbl || !Consistent(c.H, pf) {
      KeepView(v, f);
      return false;
    }
    accepted := true;
    VerifyView(c.fields, c.H, v, f, pf);
    GraftSteps(c, pf, f);
    ViewUpright(c.fields, c.H, c.T(), f);
    FreshStill(c.fields, c.H, c.scope, c.S());
  }

  lemma KeepView(v: Tree, f: Tree)
    requires View(v, f)
    ensures View(v, v)
  {
    ViewReflexive(v, f);
  }

  lemma VerifyStarts(c: Collection, f: Tree)
    requires c.Valid() && !c.ongoing && View(c.T(), f) && Full(c.fields, c.H, f)
    ensures Still(c.S()) && Holds(c.S(), c.root, []) && c.T().d.lbl == c.root.lbl && c.root in c.world
    ensures View(Build(Now(c.S()), []), f) && Genuine(c.fields, c.H, f, []) && ScopeOk(c.scope)
  {
    RootLooked(c);
    LookedStill(c, c.root, []);
    ProperStill(c.fields, c.H, c.scope, c.S());
  }

  /** Verify on a proof that has been accepted. */
  method GraftSteps(c: Collection, pf: Proof, ghost f: Tree)
    requires Still(c.S()) && Holds(c.S(), c.root, []) && View(TreeNow(c.S()), f) && Full(c.fields, c.H, f)
    requires Accepts(c.H, TreeNow(c.S()), pf) && pf.root.lbl == f.d.lbl
    modifies c`arrays, c`world, c`nodes, c.world
    ensures Still(c.S()) && TreeNow(c.S()) == Verify(c.H, old(TreeNow(c.S())), pf)
    ensures old(c.arrays) <= c.arrays && fresh(c.arrays - old(c.arrays)) && old(c.world) <= c.world
      && fresh(c.world - old(c.world))
  {
    hide c.S, CellAt, Still, Holds, Now, Build, Confined, Genuine, View, Full, DumpConsistent, Walking, Graft, To;
    ghost var v := TreeNow(c.S());
    ghost var out := Verify(c.H, v, pf);
    AcceptedRoot(c.fields, c.H, v, f, pf);
    HoldsCell(c.S(), c.root, []);
    c.Shown(c.root);
    WriteDump(c, c.root, pf.root, [], f);
    var path := c.H(pf.key);
    var depth: nat := 0;
    var cursor: Node := c.root;
    ghost var p: Path, g, cur := [], f, pf.root;
    WalkingStarts(c.fields, c.H, v, c.S(), cursor, f, pf);
    while depth < |pf.steps|
      invariant depth == |p| <= |pf.steps| <= BITS
      invariant Walking(c.fields, c.H, c.S(), cursor, p, g, path, cur, pf.steps[depth..], out)
      invariant old(c.arrays) <= c.arrays && fresh(c.arrays - old(c.arrays)) && old(c.world) <= c.world
        && fresh(c.world - old(c.world))
    {
      assert pf.steps[depth..][1..] == pf.steps[depth + 1..];
      var right := path[depth];
      cursor := GraftChildren(c, cursor, pf.steps[depth], right, p, g, path, cur, pf.steps[depth..], out);
      p, g, cur := p + [right], Child(g, right), Side(pf.steps[depth], right);
      depth := depth + 1;
    }
    assert pf.steps[depth..] == [];
    WalkingEnds(c.fields, c.H, c.S(), cursor, p, g, path, cur, out);
    WalkingStill(c.fields, c.H, c.S(), cursor, p, g, path, cur, [], out);
  }

  lemma AcceptedRoot(fs: seq<Field>, H: Hasher, v: Tree, f: Tree, pf: Proof)
    requires View(v, f) && Full(fs, H, f) && Accepts(H, v, pf)
    ensures Genuine(fs, H, f, []) && DumpConsistent(pf.root) && pf.root.lbl == f.d.lbl && |pf.steps| <= BITS
  {
    ConsistentShort(H(pf.key), pf.root, pf.steps, 0);
  }
}
