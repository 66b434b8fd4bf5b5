/** Partially known trees: how they grow from proofs, and why they stay in step with the
    full collection whose root label they hold. */
module Verifiers {
  import opened Fields
  import opened Trie
  import opened Mapping
  import opened Canonical
  import opened Lazy
  import opened Proofs
  import opened Scopes

  /** `v` is `f` with some subtrees forgotten, save for their labels. */
  ghost predicate View(v: Tree, f: Tree) {
    && v.d.lbl == f.d.lbl
    && if v.d.known then
         v.d == f.d && v.Inner? == f.Inner? && (v.Inner? ==> View(v.left, f.left) && View(v.right, f.right))
       else v.Leaf? && v.d.key == [] && !v.d.dirty && !f.d.dirty
  }

  lemma {:induction false} ViewTransitive(a: Tree, b: Tree, c: Tree)
    requires View(a, b) && View(b, c)
    ensures View(a, c)
  {
    if a.Inner? {
      ViewTransitive(a.left, b.left, c.left);
      ViewTransitive(a.right, b.right, c.right);
    }
  }

  lemma {:induction false} ViewParts(fs: seq<Field>, H: Hasher, v: Tree, f: Tree, p: Path)
    requires View(v, f) && Placed(fs, H, f, p) && Clean(f)
    ensures Placed(fs, H, v, p) && Clean(v) && Connected(v)
  {
    if v.Inner? {
      ViewParts(fs, H, v.left, f.left, p + [false]);
      ViewParts(fs, H, v.right, f.right, p + [true]);
    }
  }

  // ---- growing from proofs ----

  function Stub(l: Label): Tree {
    Leaf(NodeData(false, l, [], [], false))
  }

  /** Writing a dump onto a node. */
  function To(d: Dump, n: Tree): Tree {
    if n.d.known || n.d.lbl != d.lbl then n
    else if DumpLeaf(d) then Leaf(n.d.(known := true, values := d.values, key := d.key))
    else Inner(n.d.(known := true, values := d.values), Stub(d.left), Stub(d.right))
  }

  /** The children of a node after one step of a proof. */
  function GraftStep(s: Step, v: Tree): Tree
    requires v.Inner?
  {
    v.(left := To(s.left, v.left), right := To(s.right, v.right))
  }

  /** The loop of Verify from node `v` on. */
  function Graft(q: Digest, v: Tree, steps: seq<Step>, depth: nat): Tree
    decreases |steps|
  {
    if steps == [] || v.Leaf? || depth >= BITS then v
    else
      var g := GraftStep(steps[0], v);
      WithChild(g, q[depth], Graft(q, Child(g, q[depth]), steps[1..], depth + 1))
  }

  /** The loop never looks for the children of a node that has none. */
  predicate GraftSafe(q: Digest, v: Tree, steps: seq<Step>, depth: nat)
    decreases |steps|
  {
    steps != [] ==>
      && v.Inner? && depth < BITS
      && GraftSafe(q, Child(GraftStep(steps[0], v), q[depth]), steps[1..], depth + 1)
  }

  predicate Accepts(H: Hasher, v: Tree, pf: Proof) {
    pf.root.lbl == v.d.lbl && Consistent(H, pf)
  }

  function Verify(H: Hasher, v: Tree, pf: Proof): Tree {
    if !Accepts(H, v, pf) then v else Graft(H(pf.key), To(pf.root, v), pf.steps, 0)
  }

  /** Every node on the path, and its sibling, is known. */
  predicate Knows(v: Tree, q: Digest, depth: nat) {
    v.d.known && (v.Inner? ==>
      && v.left.d.known && v.right.d.known && depth < BITS
      && Knows(Child(v, q[depth]), q, depth + 1))
  }

  lemma {:induction false} ViewReflexive(v: Tree, f: Tree)
    requires View(v, f)
    ensures View(v, v)
  {
    if v.Inner? {
      ViewReflexive(v.left, f.left);
      ViewReflexive(v.right, f.right);
    }
  }

  lemma ToView(fs: seq<Field>, H: Hasher, d: Dump, n: Tree, f: Tree, p: Path)
    requires View(n, f) && Settled(fs, f) && Clean(f) && FullyKnown(f) && Placed(fs, H, f, p)
    requires DumpConsistent(d) && d.lbl == f.d.lbl
    ensures View(To(d, n), f) && View(n, To(d, n)) && To(d, n).d.known
  {
    DumpIsNode(fs, d, f);
    ViewReflexive(n, f);
  }

  /** Grafting a consistent proof onto a partial view of a collection: nothing crashes, the
      view stays faithful, only knowledge is added, and the whole path becomes known. */
  lemma {:induction false} GraftView(
      fs: seq<Field>, H: Hasher, q: Digest, cursor: Dump, steps: seq<Step>, v: Tree, f: Tree, p: Path)
    requires View(v, f) && v.d.known && Settled(fs, f) && Clean(f) && FullyKnown(f) && Placed(fs, H, f, p)
    requires DumpConsistent(cursor) && cursor.lbl == f.d.lbl && p <= q
    requires ConsistentFrom(q, cursor, steps, |p|)
    ensures GraftSafe(q, v, steps, |p|)
    ensures View(Graft(q, v, steps, |p|), f) && View(v, Graft(q, v, steps, |p|))
    ensures Knows(Graft(q, v, steps, |p|), q, |p|)
    decreases |steps|
  {
    DumpIsNode(fs, cursor, f);
    ViewReflexive(v, f);
    if steps != [] {
      var s := steps[0];
      var step := q[|p|];
      ToView(fs, H, s.left, v.left, f.left, p + [false]);
      ToView(fs, H, s.right, v.right, f.right, p + [true]);
      var g := GraftStep(s, v);
      GraftView(fs, H, q, Side(s, step), steps[1..], Child(g, step), Child(f, step), p + [step]);
      ViewTransitive(Child(v, step), Child(g, step), Graft(q, Child(g, step), steps[1..], |p| + 1));
    }
  }

  lemma VerifyView(fs: seq<Field>, H: Hasher, v: Tree, f: Tree, pf: Proof)
    requires View(v, f) && Full(fs, H, f) && Accepts(H, v, pf)
    ensures GraftSafe(H(pf.key), To(pf.root, v), pf.steps, 0)
    ensures View(Verify(H, v, pf), f) && View(v, Verify(H, v, pf))
    ensures Knows(Verify(H, v, pf), H(pf.key), 0)
  {
    ToView(fs, H, pf.root, v, f, []);
    GraftView(fs, H, H(pf.key), pf.root, pf.steps, To(pf.root, v), f, []);
    ViewTransitive(v, To(pf.root, v), Verify(H, v, pf));
  }

  lemma {:induction false} KnowsMore(v: Tree, w: Tree, q: Digest, depth: nat)
    requires View(v, w) && Knows(v, q, depth)
    ensures Knows(w, q, depth)
    decreases v
  {
    if v.Inner? {
      KnowsMore(Child(v, q[depth]), Child(w, q[depth]), q, depth + 1);
    }
  }
}
