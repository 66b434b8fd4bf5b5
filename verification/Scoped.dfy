/** Lazy and eager relabelling on a collection that forgets what is out of its scope: outside a
    transaction every call is followed by garbage collection, inside only End is. */
module Scoped {
  import opened Fields
  import opened Trie
  import opened Mapping
  import opened Canonical
  import opened Lazy
  import opened Scopes
  import opened Verifiers
  import opened Lockstep
  import Upkeep
  import ByteSlice

  /** The scope has a mask for the path, or holds everything. */
  ghost predicate Covers(s: Scope, q: Path)
    requires ScopeOk(s)
  {
    s == SCOPE_ALL || exists m :: m in s.masks && Inside(m, q)
  }

  lemma CoveredMatch(s: Scope, q: Path, x: Path)
    requires ScopeOk(s) && Covers(s, q) && 2 <= |x| <= |q| && x[..|x| - 1] == q[..|x| - 1]
    ensures ScopeMatch(s, x, |x| - 2)
  {
    if s != SCOPE_ALL {
      var m :| m in s.masks && Inside(m, q);
      forall i | 0 <= i < |x| - 2 && i < m.bits ensures x[i] == ByteSlice.Bit(m.value, i) {
        assert x[i] == x[..|x| - 1][i] == q[..|x| - 1][i];
      }
      assert MaskMatch(m, x, |x| - 2);
    }
  }

  /** Collecting keeps what is known along a covered path. */
  lemma {:induction false} CollectAtKnows(s: Scope, t: Tree, p: Path, q: Digest)
    requires ScopeOk(s) && Covers(s, q) && p <= q && Knows(t, q, |p|)
    ensures Knows(CollectAt(s, t, p), q, |p|) && CollectAt(s, t, p).Inner? == t.Inner?
    decreases t
  {
    if |p| >= 2 {
      assert p[..|p| - 1] == q[..|p| - 1];
      CoveredMatch(s, q, p);
    }
    if t.Inner? {
      var b := q[|p|];
      CollectAtKnows(s, Child(t, b), p + [b], q);
      SiblingKept(s, Child(t, !b), p, !b, q);
    }
  }

  lemma SiblingKept(s: Scope, c: Tree, p: Path, b: bool, q: Digest)
    requires ScopeOk(s) && Covers(s, q) && p <= q && |p| < |q| && c.d.known
    ensures CollectAt(s, c, p + [b]).d.known
  {
    if |p| >= 1 {
      assert (p + [b])[..|p|] == q[..|p|];
      CoveredMatch(s, q, p + [b]);
    }
  }

  lemma CollectKnows(s: Scope, t: Tree, q: Digest)
    requires ScopeOk(s) && s != SCOPE_NONE && Covers(s, q) && Knows(t, q, 0)
    ensures Knows(Collect(s, t), q, 0) && Collect(s, t).Inner? == t.Inner?
  {
    if t.Inner? {
      var b := q[0];
      assert [] + [b] == [b] && [] + [!b] == [!b] && [b] <= q;
      CollectAtKnows(s, Child(t, b), [b], q);
      SiblingKept(s, Child(t, !b), [], !b, q);
    }
  }

  // ---- runs ----

  ghost function Ends(fs: seq<Field>, H: Hasher, s: Scope, lazy: bool, ops: seq<Op>, t: Tree): Tree
    requires ScopeOk(s)
  {
    if ops == [] then t else Ends(fs, H, s, lazy, ops[1..], Upkeep.Outcome(fs, H, s, lazy, ops[0], t))
  }

  /** Which of the calls succeed. */
  ghost function Succeed(fs: seq<Field>, H: Hasher, s: Scope, lazy: bool, ops: seq<Op>, t: Tree): seq<bool>
    requires ScopeOk(s)
  {
    if ops == [] then []
    else [Apply(fs, H, lazy, ops[0], t).Ok?] + Succeed(fs, H, s, lazy, ops[1..],
      Upkeep.Outcome(fs, H, s, lazy, ops[0], t))
  }

  ghost predicate CallsOk(fs: seq<Field>, H: Hasher, s: Scope, ops: seq<Op>, keys: set<Bytes>)
    requires ScopeOk(s)
  {
    forall op :: op in ops ==> OpOk(fs, op) && op.key != [] && op.key in keys && Covers(s, H(op.key))
  }

  ghost predicate KnowsKeys(H: Hasher, v: Tree, ops: seq<Op>) {
    v.Inner? && forall op :: op in ops ==> Knows(v, H(op.key), 0)
  }

  /** A call on a view and on the whole tree. */
  lemma CallView(fs: seq<Field>, H: Hasher, lazy: bool, op: Op, ops: seq<Op>, v: Tree, f: Tree)
    requires View(v, f) && v.d.known && DirtyKnown(v) && KnowsKeys(H, v, ops) && op in ops && op.key != []
    ensures Apply(fs, H, lazy, op, v).Ok? == Apply(fs, H, lazy, op, f).Ok?
    ensures
      var v' := After(fs, H, lazy, op, v);
      View(v', After(fs, H, lazy, op, f)) && v'.d.known && DirtyKnown(v') && KnowsKeys(H, v', ops)
  {
    EditView(fs, H, lazy, op, v, f, 0);
    forall o | o in ops ensures Knows(After(fs, H, lazy, op, v), H(o.key), 0) {
      EditKnows(fs, H, lazy, op, v, H(o.key), 0);
    }
  }

  lemma {:induction false} LazyFollows(fs: seq<Field>, H: Hasher, s: Scope, ops: seq<Op>, all: seq<Op>, v: Tree,
      f: Tree)
    requires ScopeOk(s) && View(v, f) && v.d.known && DirtyKnown(v) && KnowsKeys(H, v, all)
    requires forall op :: op in ops ==> op in all && op.key != []
    ensures View(Ends(fs, H, s, true, ops, v), Run(fs, H, true, ops, f)) && DirtyKnown(Ends(fs, H, s, true, ops, v))
    ensures Succeed(fs, H, s, true, ops, v) == Succeed(fs, H, s, true, ops, f)
    decreases |ops|
  {
    if ops != [] {
      CallView(fs, H, true, ops[0], all, v, f);
      LazyFollows(fs, H, s, ops[1..], all, After(fs, H, true, ops[0], v), After(fs, H, true, ops[0], f));
    }
  }

  /** One call outside a transaction, with the garbage collection that follows it. */
  lemma EagerStep(fs: seq<Field>, H: Hasher, s: Scope, op: Op, all: seq<Op>, v: Tree, f: Tree, keys: set<Bytes>)
    requires ScopeOk(s) && s != SCOPE_NONE && CallsOk(fs, H, s, all, keys) && op in all
    requires View(v, f) && v.d.known && KnowsKeys(H, v, all) && Full(fs, H, f) && Apart(H, Stored(f), op.key)
    ensures Apply(fs, H, false, op, v).Ok? == Apply(fs, H, false, op, f).Ok?
    ensures
      var v' := Upkeep.Outcome(fs, H, s, false, op, v);
      View(v', After(fs, H, false, op, f)) && v'.d.known && KnowsKeys(H, v', all)
  {
    ViewParts(fs, H, v, f, []);
    CleanDirtyKnown(v);
    CallView(fs, H, false, op, all, v, f);
    ApplyFull(fs, H, op, f);
    var w, g := After(fs, H, false, op, v), After(fs, H, false, op, f);
    ViewParts(fs, H, w, g, []);
    ViewReflexive(w, g);
    CollectView(s, w);
    ViewTransitive(Collect(s, w), w, g);
    forall o | o in all ensures Knows(Collect(s, w), H(o.key), 0) && Collect(s, w).Inner? {
      CollectKnows(s, w, H(o.key));
    }
  }

  lemma {:induction false} EagerFollows(
      fs: seq<Field>, H: Hasher, s: Scope, ops: seq<Op>, all: seq<Op>, v: Tree, f: Tree, keys: set<Bytes>)
    requires ScopeOk(s) && s != SCOPE_NONE && CallsOk(fs, H, s, all, keys) && forall op :: op in ops ==> op in all
    requires View(v, f) && v.d.known && KnowsKeys(H, v, all)
    requires Full(fs, H, f) && Stored(f).Keys <= keys && Separates(H, keys)
    ensures View(Ends(fs, H, s, false, ops, v), Run(fs, H, false, ops, f)) && Full(fs, H, Run(fs, H, false, ops, f))
    ensures Succeed(fs, H, s, false, ops, v) == Succeed(fs, H, SCOPE_ALL, false, ops, f)
    decreases |ops|
  {
    if ops != [] {
      hide View, Full, KnowsKeys, Covers, Apply, Scopes.Collect;
      var v', f' := Upkeep.Outcome(fs, H, s, false, ops[0], v), After(fs, H, false, ops[0], f);
      EagerStep(fs, H, s, ops[0], all, v, f, keys);
      ApplyFull(fs, H, ops[0], f);
      CollectAll(f');
      EagerFollows(fs, H, s, ops[1..], all, v', f', keys);
    }
  }

  /** On the whole tree the same calls succeed, lazily or not. */
  lemma {:induction false} LazySucceeds(fs: seq<Field>, H: Hasher, s: Scope, ops: seq<Op>, t: Tree)
    requires ScopeOk(s) && Placed(fs, H, t, []) && Sound(fs, t) && forall op :: op in ops ==> OpOk(fs, op)
    ensures Succeed(fs, H, s, true, ops, t) == Succeed(fs, H, SCOPE_ALL, false, ops, Fix(fs, t))
  {
    if ops != [] {
      ApplyLazy(fs, H, ops[0], t);
      CollectAll(After(fs, H, false, ops[0], Fix(fs, t)));
      LazySucceeds(fs, H, s, ops[1..], After(fs, H, true, ops[0], t));
    }
  }

  /** A transaction, ended by relabelling and garbage collection, and the same calls made outside
      a transaction, each with its own: the same calls succeed, both end in views of the same
      whole tree, and the root labels agree, if the scope covers the keys of the calls. */
  lemma ScopedLazyIsEager(fs: seq<Field>, H: Hasher, s: Scope, ops: seq<Op>, v: Tree, f: Tree, keys: set<Bytes>)
    requires ScopeOk(s) && s != SCOPE_NONE && CallsOk(fs, H, s, ops, keys)
    requires View(v, f) && v.d.known && KnowsKeys(H, v, ops)
    requires Full(fs, H, f) && Stored(f).Keys <= keys && Separates(H, keys)
    ensures Succeed(fs, H, s, true, ops, v) == Succeed(fs, H, s, false, ops, v)
    ensures
      var ended := Collect(s, Fix(fs, Ends(fs, H, s, true, ops, v)));
      var g := Run(fs, H, false, ops, f);
      && View(ended, g) && View(Ends(fs, H, s, false, ops, v), g)
         && ended.d.lbl == Ends(fs, H, s, false, ops, v).d.lbl
  {
    EagerFollows(fs, H, s, ops, ops, v, f, keys);
    ViewParts(fs, H, v, f, []);
    CleanDirtyKnown(v);
    LazyFollows(fs, H, s, ops, ops, v, f);
    CleanClosed(f);
    LazyIsEager(fs, H, ops, f);
    LazySucceeds(fs, H, s, ops, f);
    EndsInView(fs, H, s, Ends(fs, H, s, true, ops, v), Run(fs, H, true, ops, f));
  }

  lemma EndsInView(fs: seq<Field>, H: Hasher, s: Scope, v: Tree, f: Tree)
    requires ScopeOk(s) && View(v, f) && DirtyKnown(v) && Full(fs, H, Fix(fs, f))
    ensures View(Collect(s, Fix(fs, v)), Fix(fs, f))
  {
    FixView(fs, v, f);
    ViewParts(fs, H, Fix(fs, v), Fix(fs, f), []);
    ViewReflexive(Fix(fs, v), Fix(fs, f));
    CollectView(s, Fix(fs, v));
    ViewTransitive(Collect(s, Fix(fs, v)), Fix(fs, v), Fix(fs, f));
  }
}
