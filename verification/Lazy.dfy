/** Inside a transaction nodes are only flagged; the labels are put right at the end.
    The outcome is that of relabelling after every call. */
module Lazy {
  import opened Fields
  import opened Trie
  import opened Mapping
  import opened Canonical

  /** A flagged node has flagged ancestors. */
  ghost predicate Closed(t: Tree) {
    t.Inner? ==>
      && (t.left.d.dirty || t.right.d.dirty ==> t.d.dirty)
      && Closed(t.left) && Closed(t.right)
  }

  /** Whatever is stale is flagged, and everything needed to put it right is known. */
  ghost predicate Repairable(fs: seq<Field>, t: Tree) {
    Settled(fs, t) ||
    (t.Inner? && t.d.dirty && t.d.known && t.left.d.known && t.right.d.known
     && Repairable(fs, t.left) && Repairable(fs, t.right))
  }

  ghost predicate Sound(fs: seq<Field>, t: Tree) {
    Closed(t) && Repairable(fs, t)
  }

  /** What fix does: relabel the flagged nodes, children first, and clear their flags. */
  ghost function Fix(fs: seq<Field>, t: Tree): Tree {
    if !t.d.dirty then t
    else match t
      case Leaf(d) => Update(fs, Leaf(d.(dirty := false)))
      case Inner(d, l, r) => Update(fs, Inner(d.(dirty := false), Fix(fs, l), Fix(fs, r)))
  }

  lemma {:induction false} ClosedClean(t: Tree)
    requires Closed(t) && !t.d.dirty
    ensures Clean(t)
  {
    if t.Inner? {
      ClosedClean(t.left);
      ClosedClean(t.right);
    }
  }

  lemma {:induction false} CleanClosed(t: Tree)
    requires Clean(t)
    ensures Closed(t)
  {
    if t.Inner? {
      CleanClosed(t.left);
      CleanClosed(t.right);
    }
  }

  /** Fix changes labels, aggregated values and flags, nothing else. */
  lemma {:induction false} FixKeeps(fs: seq<Field>, H: Hasher, t: Tree, p: Path)
    ensures Fix(fs, t).Inner? == t.Inner? && Fix(fs, t).d.known == t.d.known && Fix(fs, t).d.key == t.d.key
    ensures t.Leaf? ==> Fix(fs, t).d.values == t.d.values
    ensures FullyKnown(Fix(fs, t)) == FullyKnown(t)
    ensures Placed(fs, H, Fix(fs, t), p) == Placed(fs, H, t, p)
    ensures Stored(Fix(fs, t)) == Stored(t)
    ensures Canon(Fix(fs, t)) == Canon(t)
  {
    if t.Inner? && t.d.dirty {
      FixKeeps(fs, H, t.left, p + [false]);
      FixKeeps(fs, H, t.right, p + [true]);
      UpdateKeeps(fs, H, Inner(t.d.(dirty := false), Fix(fs, t.left), Fix(fs, t.right)), p);
    }
  }

  lemma {:induction false} FixTidy(fs: seq<Field>, t: Tree)
    ensures Tidy(fs, Fix(fs, t)) == Tidy(fs, t)
  {
    if t.Inner? && t.d.dirty {
      FixTidy(fs, t.left);
      FixTidy(fs, t.right);
    }
  }

  lemma {:induction false} SettledFix(fs: seq<Field>, t: Tree)
    requires Settled(fs, t)
    ensures Settled(fs, Fix(fs, t)) && Fix(fs, t).d.lbl == t.d.lbl
    ensures Fix(fs, t).d.values == t.d.values && Fix(fs, t).d.known == t.d.known
  {
    if t.Inner? && t.d.dirty {
      SettledFix(fs, t.left);
      SettledFix(fs, t.right);
    }
  }

  lemma {:induction false} FixRepairs(fs: seq<Field>, t: Tree)
    requires Repairable(fs, t)
    ensures Settled(fs, Fix(fs, t)) && Fix(fs, t).d.known == t.d.known
  {
    if Settled(fs, t) {
      SettledFix(fs, t);
    } else {
      FixRepairs(fs, t.left);
      FixRepairs(fs, t.right);
      UpdateSettled(fs, Inner(t.d.(dirty := false), Fix(fs, t.left), Fix(fs, t.right)));
    }
  }

  lemma {:induction false} FixCleans(fs: seq<Field>, t: Tree)
    requires Closed(t)
    ensures Clean(Fix(fs, t))
  {
    if !t.d.dirty {
      ClosedClean(t);
    } else if t.Inner? {
      FixCleans(fs, t.left);
      FixCleans(fs, t.right);
    }
  }

  /** After the end of a transaction every label is right and no flag remains. */
  lemma FixSettles(fs: seq<Field>, t: Tree)
    requires Sound(fs, t)
    ensures Settled(fs, Fix(fs, t)) && Clean(Fix(fs, t)) && Fix(fs, t).d.known == t.d.known
  {
    FixRepairs(fs, t);
    FixCleans(fs, t);
  }

  lemma SoundParts(fs: seq<Field>, t: Tree)
    requires Sound(fs, t) && t.Inner?
    ensures Sound(fs, t.left) && Sound(fs, t.right) && t.d.known
  {
  }

  /** `u` is what `t` will be after the transaction, except perhaps at the top node itself. */
  ghost predicate Ahead(fs: seq<Field>, t: Tree, u: Tree) {
    && t.Inner? && u.Inner? && Sound(fs, t.left) && Sound(fs, t.right)
    && u.left == Fix(fs, t.left) && u.right == Fix(fs, t.right)
    && t.d.known && u.d.known && t.d.key == u.d.key && !u.d.dirty
  }

  ghost predicate SameOutcome(fs: seq<Field>, r: Result, e: Result) {
    match r
    case Ok(t) => Sound(fs, t) && t.d.known && e == Ok(Fix(fs, t))
    case Err(x) => e == Err(x)
  }

  lemma {:induction false} EditLazy(fs: seq<Field>, H: Hasher, op: Op, t: Tree, u: Tree, p: Path)
    requires Placed(fs, H, t, p) && p <= H(op.key) && OpOk(fs, op)
    requires Ahead(fs, t, u)
    ensures SameOutcome(fs, Edit(fs, H, true, op, t, |p|), Edit(fs, H, false, op, u, |p|))
    decreases BITS - |p|, 1
  {
    var step := H(op.key)[|p|];
    FixKeeps(fs, H, t.left, p + [false]);
    FixKeeps(fs, H, t.right, p + [true]);
    if t.left.d.known && t.right.d.known {
      EditChildLazy(fs, H, op, Child(t, step), p + [step]);
      var e := EditChild(fs, H, true, op, Child(t, step), |p| + 1);
      if e.Ok? {
        FixKeeps(fs, H, e.tree, p + [step]);
        RebuildLazy(fs, H, op, p, WithChild(t, step, e.tree), WithChild(u, step, Fix(fs, e.tree)));
      }
    }
  }

  lemma RebuildLazy(fs: seq<Field>, H: Hasher, op: Op, p: Path, t: Tree, u: Tree)
    requires Ahead(fs, t, u) && t.left.d.known && t.right.d.known
    ensures SameOutcome(fs, Ok(Rebuild(fs, true, op, |p|, t)), Ok(Rebuild(fs, false, op, |p|, u)))
  {
    FixKeeps(fs, H, t.left, p + [false]);
    FixKeeps(fs, H, t.right, p + [true]);
    FixSettles(fs, t.left);
    FixSettles(fs, t.right);
    SettledValues(fs, u.left);
    SettledValues(fs, u.right);
    if op.Remove? && |p| > 0 && Collapsible(t.left, t.right) {
      LeafFix(fs, t.left);
      LeafFix(fs, t.right);
    }
  }

  lemma LeafFix(fs: seq<Field>, t: Tree)
    requires t.Leaf? && Settled(fs, t)
    ensures Fix(fs, t) == Leaf(t.d.(dirty := false))
  {
  }

  lemma {:induction false} EditChildLazy(fs: seq<Field>, H: Hasher, op: Op, c: Tree, p: Path)
    requires Placed(fs, H, c, p) && p <= H(op.key) && OpOk(fs, op)
    requires Sound(fs, c) && c.d.known
    ensures SameOutcome(fs, EditChild(fs, H, true, op, c, |p|), EditChild(fs, H, false, op, Fix(fs, c), |p|))
    decreases BITS - |p|, 2
  {
    FixKeeps(fs, H, c, p);
    if c.Inner? {
      SoundParts(fs, c);
      if !c.d.dirty { ClosedClean(c); }
      EditLazy(fs, H, op, c, Fix(fs, c), p);
    } else {
      LeafFix(fs, c);
      if op.Add? && c.d.key != [] && c.d.key != op.key && |p| < BITS {
        SplitPlaced(fs, H, c.d, p);
        EditLazy(fs, H, op, Split(fs, c.d, H(c.d.key)[|p|]), Split(fs, Fix(fs, c).d, H(c.d.key)[|p|]), p);
      }
    }
  }

  /** One call inside a transaction is ahead of its relabelled outcome by one Fix. */
  lemma ApplyLazy(fs: seq<Field>, H: Hasher, op: Op, t: Tree)
    requires Placed(fs, H, t, []) && Sound(fs, t) && OpOk(fs, op)
    ensures Apply(fs, H, true, op, t).Ok? == Apply(fs, H, false, op, Fix(fs, t)).Ok?
    ensures Sound(fs, After(fs, H, true, op, t)) && Placed(fs, H, After(fs, H, true, op, t), [])
    ensures Fix(fs, After(fs, H, true, op, t)) == After(fs, H, false, op, Fix(fs, t))
  {
    FixKeeps(fs, H, t, []);
    if t.Inner? {
      SoundParts(fs, t);
      if !t.d.dirty { ClosedClean(t); }
      EditLazy(fs, H, op, t, Fix(fs, t), []);
      EditPlaced(fs, H, true, op, t, []);
    }
  }

  /** A transaction (calls between Begin and End) ends in the tree that the same calls reach
      when each of them relabels the path to the root at once. */
  lemma {:induction false} LazyIsEager(fs: seq<Field>, H: Hasher, ops: seq<Op>, t: Tree)
    requires Placed(fs, H, t, []) && Sound(fs, t)
    requires forall i :: 0 <= i < |ops| ==> OpOk(fs, ops[i])
    ensures Sound(fs, Run(fs, H, true, ops, t))
    ensures Fix(fs, Run(fs, H, true, ops, t)) == Run(fs, H, false, ops, Fix(fs, t))
  {
    if ops != [] {
      ApplyLazy(fs, H, ops[0], t);
      LazyIsEager(fs, H, ops[1..], After(fs, H, true, ops[0], t));
    }
  }
}
