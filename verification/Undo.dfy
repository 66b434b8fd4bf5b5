/** What a rollback brings back. Nodes are backed up before they are changed, but a collapse
    moves a leaf up without copying its slice of values: the node it came from stays as it is,
    without a backup, and a later Set on the key writes to the slice of both. */
module Undo {
  import opened Fields
  import opened Trie
  import opened Mapping
  import opened Canonical
  import opened Layout

  /** A tree without its flags. */
  ghost function Plain(t: Tree): Tree {
    match t
    case Leaf(d) => Leaf(d.(dirty := false))
    case Inner(d, l, r) => Inner(d.(dirty := false), Plain(l), Plain(r))
  }

  lemma {:induction false} PlainKeeps(fs: seq<Field>, H: Hasher, t: Tree, p: Path)
    ensures Placed(fs, H, Plain(t), p) == Placed(fs, H, t, p) && Settled(fs, Plain(t)) == Settled(fs, t)
    ensures Stored(Plain(t)) == Stored(t) && Plain(t).d.lbl == t.d.lbl && FullyKnown(Plain(t)) == FullyKnown(t)
  {
    if t.Inner? {
      PlainKeeps(fs, H, t.left, p + [false]);
      PlainKeeps(fs, H, t.right, p + [true]);
    }
  }

  /** Which keys have leaves that a rollback is tied to: those in `risky` show the slice of a node
      that it brings back as it is; those in `owned` show a slice of their own. All others sit
      in the nodes in which Begin found them. */
  datatype Ties = Ties(risky: set<Bytes>, owned: set<Bytes>)

  const NO_TIES := Ties({}, {})

  /** The ties after a call. A leaf that makes room for another has been backed up; a leaf that
      a collapse moves up has not. */
  ghost function Retie(fs: seq<Field>, H: Hasher, op: Op, t: Tree, w: Ties): Ties {
    var e := Apply(fs, H, true, op, t);
    if e.Err? then w
    else match op
      case Add(k, _) => Ties(w.risky - {k}, w.owned + {k} + (Raised(e.tree, t) - w.risky))
      case Set(k, _) => Ties(w.risky, w.owned + ({k} - w.risky))
      case Remove(_) => Ties(w.risky + (Raised(t, e.tree) - w.owned), w.owned)
  }

  /** The values at the end of a path are overwritten; the label there stays. */
  ghost function Stain(t: Tree, h: Path, change: seq<Option<Bytes>>): Tree {
    match t
    case Leaf(d) => Leaf(d.(values := Overwrite(d.values, change)))
    case Inner(_, l, r) =>
      if h == [] then t
      else if h[0] then t.(right := Stain(r, h[1..], change))
      else t.(left := Stain(l, h[1..], change))
  }

  /** What a rollback would bring back after a call, if it was `back` before. */
  ghost function Restain(fs: seq<Field>, H: Hasher, op: Op, t: Tree, w: Ties, back: Tree): Tree {
    if op.Set? && op.key in w.risky && Apply(fs, H, true, op, t).Ok? then Stain(back, H(op.key), op.change) else back
  }

  /** What a rollback brings back after a sequence of calls. */
  ghost function Undone(fs: seq<Field>, H: Hasher, ops: seq<Op>, t: Tree, w: Ties, back: Tree): Tree {
    if ops == [] then back
    else Undone(fs, H, ops[1..], After(fs, H, true, ops[0], t), Retie(fs, H, ops[0], t, w),
      Restain(fs, H, ops[0], t, w, back))
  }

  // ---- when a rollback restores the tree ----

  /** The call changes the values of a leaf that shares them with a node that is brought back. */
  ghost predicate Harms(fs: seq<Field>, H: Hasher, op: Op, t: Tree, w: Ties) {
    && op.Set? && op.key in w.risky && op.key in Stored(t) && Apply(fs, H, true, op, t).Ok?
    && Overwrite(Stored(t)[op.key], op.change) != Stored(t)[op.key]
  }

  ghost predicate Careful(fs: seq<Field>, H: Hasher, ops: seq<Op>, t: Tree, w: Ties) {
    ops == [] ||
    (!Harms(fs, H, ops[0], t, w)
     && Careful(fs, H, ops[1..], After(fs, H, true, ops[0], t), Retie(fs, H, ops[0], t, w)))
  }

  ghost predicate Callable(fs: seq<Field>, ops: seq<Op>) {
    forall op :: op in ops ==> OpOk(fs, op) && op.key != []
  }

  /** Leaves that do not own their slice show what a rollback brings back for them. */
  ghost predicate Mirrors(fs: seq<Field>, H: Hasher, t: Tree, w: Ties, back: Tree) {
    && Placed(fs, H, t, []) && (t.d.known ==> t.Inner?) && Placed(fs, H, back, []) && w.risky !! w.owned
    && forall k :: k in Stored(t) && k !in w.owned ==> k in Stored(back) && Stored(back)[k] == Stored(t)[k]
  }

  lemma {:induction false} StainAt(fs: seq<Field>, H: Hasher, t: Tree, p: Path, k: Bytes, change: seq<Option<Bytes>>)
    requires Placed(fs, H, t, p) && k in Stored(t) && p <= H(k)
    ensures Stain(t, H(k)[|p|..], change) == t <==> Overwrite(Stored(t)[k], change) == Stored(t)[k]
  {
    if t.Inner? {
      var b := H(k)[|p|];
      SidesDisjoint(fs, H, t, p);
      StoredPlaced(fs, H, Child(t, b), p + [b]);
      assert H(k)[|p|..][0] == b && H(k)[|p|..][1..] == H(k)[|p + [b]|..];
      StainAt(fs, H, Child(t, b), p + [b], k, change);
    }
  }

  lemma {:induction false} StainPlaced(fs: seq<Field>, H: Hasher, t: Tree, p: Path, h: Path,
      change: seq<Option<Bytes>>)
    requires Placed(fs, H, t, p) && OpOk(fs, Op.Set([], change))
    ensures Placed(fs, H, Stain(t, h, change), p)
  {
    if t.Inner? && h != [] {
      StainPlaced(fs, H, Child(t, h[0]), p + [h[0]], h[1..], change);
    }
  }

  /** What a successful call does to what is stored. */
  lemma ApplyOk(fs: seq<Field>, H: Hasher, op: Op, t: Tree)
    requires Placed(fs, H, t, []) && OpOk(fs, op) && op.key != []
    ensures Placed(fs, H, After(fs, H, true, op, t), [])
    ensures Apply(fs, H, true, op, t).Ok? ==> MapOp(op, Stored(t)) == Some(Stored(After(fs, H, true, op, t)))
    ensures t.d.known && t.Inner? ==> After(fs, H, true, op, t).Inner? && After(fs, H, true, op, t).d.known
  {
    if t.Inner? && t.d.known {
      EditOk(fs, H, true, op, t, []);
      EditPlaced(fs, H, true, op, t, []);
    }
  }

  lemma MirrorStep(fs: seq<Field>, H: Hasher, op: Op, t: Tree, w: Ties, back: Tree)
    requires Mirrors(fs, H, t, w, back) && OpOk(fs, op) && op.key != [] && !Harms(fs, H, op, t, w)
    ensures Restain(fs, H, op, t, w, back) == back
    ensures Mirrors(fs, H, After(fs, H, true, op, t), Retie(fs, H, op, t, w), back)
  {
    ApplyOk(fs, H, op, t);
    if op.Set? && op.key in w.risky && Apply(fs, H, true, op, t).Ok? {
      StainAt(fs, H, back, [], op.key, op.change);
      assert H(op.key)[0..] == H(op.key);
    }
  }

  lemma HarmStep(fs: seq<Field>, H: Hasher, op: Op, t: Tree, w: Ties, back: Tree)
    requires Mirrors(fs, H, t, w, back) && Harms(fs, H, op, t, w)
    ensures Restain(fs, H, op, t, w, back) != back
  {
    StainAt(fs, H, back, [], op.key, op.change);
    assert H(op.key)[0..] == H(op.key);
  }

  /** As long as no call harms, and no longer, a rollback restores the tree. */
  lemma {:induction false} RestoresRun(fs: seq<Field>, H: Hasher, ops: seq<Op>, t: Tree, w: Ties, back: Tree)
    requires Mirrors(fs, H, t, w, back) && Callable(fs, ops)
    ensures Careful(fs, H, ops, t, w) <==> forall i :: 0 <= i <= |ops| ==> Undone(fs, H, ops[..i], t, w, back) == back
  {
    if ops != [] {
      var op := ops[0];
      if Harms(fs, H, op, t, w) {
        HarmStep(fs, H, op, t, w, back);
        assert ops[..1] == [op] && [op][1..] == [];
        assert Undone(fs, H, ops[..1], t, w, back) != back;
      } else {
        MirrorStep(fs, H, op, t, w, back);
        var t', w' := After(fs, H, true, op, t), Retie(fs, H, op, t, w);
        RestoresRun(fs, H, ops[1..], t', w', back);
        forall i | 1 <= i <= |ops|
          ensures Undone(fs, H, ops[..i], t, w, back) == Undone(fs, H, ops[1..][..i - 1], t', w', back)
        {
          assert ops[..i][1..] == ops[1..][..i - 1];
        }
        if i :| 0 <= i <= |ops[1..]| && Undone(fs, H, ops[1..][..i], t', w', back) != back {
          assert Undone(fs, H, ops[..i + 1], t, w, back) != back;
        }
      }
    }
  }

  /** Rolling back a transaction after each of its calls restores the tree every time exactly if
      no Set changes the values of a key whose leaf a collapse has moved up, in the node in which
      Begin found it, unless the key has been added anew since. */
  lemma RestoresExactly(fs: seq<Field>, H: Hasher, ops: seq<Op>, t: Tree)
    requires Placed(fs, H, t, []) && (t.d.known ==> t.Inner?) && Callable(fs, ops)
    ensures Careful(fs, H, ops, t, NO_TIES) <==>
      forall i :: 0 <= i <= |ops| ==> Undone(fs, H, ops[..i], t, NO_TIES, Plain(t)) == Plain(t)
  {
    PlainKeeps(fs, H, t, []);
    RestoresRun(fs, H, ops, t, NO_TIES, Plain(t));
  }

  // ---- the flag that a rollback leaves ----

  ghost predicate SomeSucceed(fs: seq<Field>, H: Hasher, ops: seq<Op>, t: Tree) {
    ops != [] && (Apply(fs, H, true, ops[0], t).Ok? || SomeSucceed(fs, H, ops[1..], After(fs, H, true, ops[0], t)))
  }

  /** A call that succeeds in a transaction flags the root. */
  lemma FlagsRoot(fs: seq<Field>, H: Hasher, op: Op, t: Tree)
    ensures After(fs, H, true, op, t).d.dirty <==> t.d.dirty || Apply(fs, H, true, op, t).Ok?
  {
  }

  // ---- a rollback that does not restore ----

  /** Two leaves side by side, below the left child of the root */
  ghost predicate Siblings(fs: seq<Field>, H: Hasher, t: Tree, a: Bytes, b: Bytes) {
    && Placed(fs, H, t, []) && t.Inner? && t.right.d.known && t.left.Inner? && t.left.left.Leaf? && t.left.right.Leaf?
    && t.left.left.d.known && t.left.right.d.known && t.left.left.d.key == a && t.left.right.d.key == b
    && a != [] && b != []
  }

  lemma SiblingPaths(fs: seq<Field>, H: Hasher, t: Tree, a: Bytes, b: Bytes)
    requires Siblings(fs, H, t, a, b)
    ensures !H(a)[0] && !H(a)[1] && !H(b)[0] && H(b)[1]
    ensures b in Stored(t) && Stored(t)[b] == t.left.right.d.values
  {
    assert Placed(fs, H, t.left, [] + [false]);
    assert Placed(fs, H, t.left.left, [] + [false] + [false]) && Placed(fs, H, t.left.right, [] + [false] + [true]);
    assert ([] + [false] + [false])[1] == H(a)[1] && ([] + [false] + [false])[0] == H(a)[0];
    assert ([] + [false] + [true])[1] && ([] + [false] + [true])[0] == H(b)[0];
    SidesDisjoint(fs, H, t, []);
    SidesDisjoint(fs, H, t.left, [] + [false]);
  }

  /** Removing one moves the other up into their parent. */
  lemma SiblingRemoved(fs: seq<Field>, H: Hasher, t: Tree, a: Bytes, b: Bytes)
    requires Siblings(fs, H, t, a, b)
    ensures
      var u := t.(d := t.d.(dirty := true), left := Leaf(t.left.d.(lbl := t.left.right.d.lbl, key := b,
        values := t.left.right.d.values)));
      Apply(fs, H, true, Op.Remove(a), t) == Ok(u) && b in Raised(t, u)
  {
    SiblingPaths(fs, H, t, a, b);
    var op := Op.Remove(a);
    assert EditChild(fs, H, true, op, t.left.left, 2) == Ok(Leaf(PlaceholderData(fs, t.left.left.d.dirty)));
    assert Edit(fs, H, true, op, t.left, 1) ==
      Ok(Leaf(t.left.d.(lbl := t.left.right.d.lbl, key := b, values := t.left.right.d.values)));
    var moved := Leaf(t.left.d.(lbl := t.left.right.d.lbl, key := b, values := t.left.right.d.values));
    assert EditChild(fs, H, true, op, t.left, 1) == Ok(moved);
    assert Placed(fs, H, t.left, [] + [false]) && t.left.d.known;
    assert WithChild(t, false, moved) == t.(left := moved);
    assert Edit(fs, H, true, op, t, 0) == Ok(Finish(fs, true, t.(left := moved)));
    assert Raised(t.left, moved) == {b};
  }

  /** Where that leaf is then, Set finds it. */
  lemma LiftedSet(fs: seq<Field>, H: Hasher, u: Tree, b: Bytes, change: seq<Option<Bytes>>)
    requires u.Inner? && u.d.known && u.left.Leaf? && u.left.d.known && u.right.d.known && u.left.d.key == b
      && !H(b)[0]
    ensures Apply(fs, H, true, Op.Set(b, change), u).Ok?
  {
    assert EditChild(fs, H, true, Op.Set(b, change), u.left, 1).Ok?;
  }

  /** Remove one of two siblings, Set the other to other values, and roll back: the values of the
      second are lost. */
  lemma RollbackLoses(fs: seq<Field>, H: Hasher, t: Tree, a: Bytes, b: Bytes, change: seq<Option<Bytes>>)
    requires Siblings(fs, H, t, a, b) && OpOk(fs, Op.Set(b, change))
    requires Overwrite(t.left.right.d.values, change) != t.left.right.d.values
    ensures
      var ops := [Op.Remove(a), Op.Set(b, change)];
      !Careful(fs, H, ops, t, NO_TIES) && Undone(fs, H, ops, t, NO_TIES, Plain(t)) != Plain(t)
  {
    var ops := [Op.Remove(a), Op.Set(b, change)];
    var u := After(fs, H, true, ops[0], t);
    var w := Retie(fs, H, ops[0], t, NO_TIES);
    SiblingPaths(fs, H, t, a, b);
    SiblingRemoved(fs, H, t, a, b);
    LiftedSet(fs, H, u, b, change);
    assert b in w.risky && b in Stored(u) && Stored(u)[b] == t.left.right.d.values by {
      ApplyOk(fs, H, ops[0], t);
      SidesDisjoint(fs, H, u, []);
    }
    PlainKeeps(fs, H, t, []);
    MirrorStep(fs, H, ops[0], t, NO_TIES, Plain(t));
    HarmStep(fs, H, ops[1], u, w, Plain(t));
    assert ops[1..] == [ops[1]] && [ops[1]][1..] == [];
    assert Undone(fs, H, ops[1..], u, w, Plain(t)) == Restain(fs, H, ops[1], u, w, Plain(t));
  }

  /** The paths of two keys part at the second step, below the left child of the root. */
  ghost predicate PartAtSecond(H: Hasher, a: Bytes, b: Bytes) {
    a != [] && b != [] && !H(a)[0] && !H(a)[1] && !H(b)[0] && H(b)[1]
  }

  ghost function TwoAdds(a: Bytes, b: Bytes, x: seq<Bytes>, y: seq<Bytes>): seq<Op> {
    [Op.Add(a, x), Op.Add(b, y)]
  }

  lemma TwoStored(fs: seq<Field>, H: Hasher, a: Bytes, b: Bytes, x: seq<Bytes>, y: seq<Bytes>)
    requires PartAtSecond(H, a, b) && ValuesOk(fs, x) && ValuesOk(fs, y)
    ensures
      var t := Run(fs, H, false, TwoAdds(a, b, x, y), Empty(fs));
      Full(fs, H, t) && Stored(t) == map[a := x, b := y] && a != b
  {
    var ops := TwoAdds(a, b, x, y);
    EmptyFull(fs, H);
    RunFull(fs, H, ops, Empty(fs), {a, b});
    assert ops[1..] == [Op.Add(b, y)] && [Op.Add(b, y)][1..] == [];
    assert MapRun([Op.Add(b, y)], map[a := x]) == map[a := x, b := y];
  }

  lemma FullParts(fs: seq<Field>, H: Hasher, t: Tree)
    requires Full(fs, H, t)
    ensures t.Inner? && FullyKnown(t.left) && t.right.d.known && Placed(fs, H, t, []) && Canon(t.left)
    ensures Placed(fs, H, t.left, [false])
  {
    assert [] + [false] == [false];
    assert FullyKnown(t.left) && FullyKnown(t.right);
  }

  lemma TwoBelowRoot(fs: seq<Field>, H: Hasher, t: Tree, a: Bytes, b: Bytes, x: seq<Bytes>, y: seq<Bytes>)
    requires PartAtSecond(H, a, b) && t.Inner? && FullyKnown(t.left) && Canon(t.left)
    requires Placed(fs, H, t, []) && Placed(fs, H, t.left, [false]) && Stored(t) == map[a := x, b := y] && a != b
    ensures t.left.Inner? && Stored(t.left) == map[a := x, b := y]
  {
    hide Canon, FullyKnown, Placed;
    SideOf(fs, H, t, []);
    assert Stored(t.left) == map[a := x, b := y];
    KindByCount(fs, H, t.left, [false]);
    assert |Stored(t.left).Keys| == |{a, b}| == 2;
  }

  /** The only leaf in a subtree */
  lemma OnlyLeaf(fs: seq<Field>, H: Hasher, t: Tree, p: Path, k: Bytes, x: seq<Bytes>)
    requires FullyKnown(t) && Placed(fs, H, t, p) && Canon(t) && Stored(t) == map[k := x]
    ensures t.Leaf? && t.d.known && t.d.key == k && t.d.values == x
  {
    KindByCount(fs, H, t, p);
    assert |Stored(t).Keys| == |{k}| == 1;
    assert k in Stored(t);
  }

  lemma TwoBelowLeft(fs: seq<Field>, H: Hasher, t: Tree, a: Bytes, b: Bytes, x: seq<Bytes>, y: seq<Bytes>)
    requires PartAtSecond(H, a, b) && a != b && t.Inner? && FullyKnown(t) && Placed(fs, H, t, [false]) && Canon(t)
    requires Stored(t) == map[a := x, b := y]
    ensures t.left.Leaf? && t.left.d.known && t.left.d.key == a
    ensures t.right.Leaf? && t.right.d.known && t.right.d.key == b && t.right.d.values == y
  {
    SideOf(fs, H, t, [false]);
    assert Stored(t.left) == map[a := x] && Stored(t.right) == map[b := y];
    OnlyLeaf(fs, H, t.left, [false] + [false], a, x);
    OnlyLeaf(fs, H, t.right, [false] + [true], b, y);
  }

  /** Added to a new collection they end up side by side. */
  lemma SiblingsReached(fs: seq<Field>, H: Hasher, a: Bytes, b: Bytes, x: seq<Bytes>, y: seq<Bytes>)
    requires PartAtSecond(H, a, b) && ValuesOk(fs, x) && ValuesOk(fs, y)
    ensures
      var t := Run(fs, H, false, TwoAdds(a, b, x, y), Empty(fs));
      Full(fs, H, t) && Siblings(fs, H, t, a, b) && t.left.right.d.values == y
  {
    var t := Run(fs, H, false, TwoAdds(a, b, x, y), Empty(fs));
    TwoStored(fs, H, a, b, x, y);
    FullParts(fs, H, t);
    TwoBelowRoot(fs, H, t, a, b, x, y);
    TwoBelowLeft(fs, H, t.left, a, b, x, y);
  }

  /** On a new collection: Add two such keys; then, in a transaction, Remove the first, Set the
      second to other values, and roll back. The tree is not the one of Begin. */
  lemma RollbackLosesReached(
      fs: seq<Field>, H: Hasher, a: Bytes, b: Bytes, x: seq<Bytes>, y: seq<Bytes>, change: seq<Option<Bytes>>)
    requires PartAtSecond(H, a, b) && ValuesOk(fs, x) && ValuesOk(fs, y)
    requires OpOk(fs, Op.Set(b, change)) && Overwrite(y, change) != y
    ensures
      var t := Run(fs, H, false, TwoAdds(a, b, x, y), Empty(fs));
      var ops := [Op.Remove(a), Op.Set(b, change)];
      Full(fs, H, t) && !Careful(fs, H, ops, t, NO_TIES) && Undone(fs, H, ops, t, NO_TIES, Plain(t)) != Plain(t)
  {
    SiblingsReached(fs, H, a, b, x, y);
    RollbackLoses(fs, H, Run(fs, H, false, TwoAdds(a, b, x, y), Empty(fs)), a, b, change);
  }

  /** There are such keys, values and changes. */
  lemma LossExists()
    ensures
      var H: Hasher := k => seq(BITS, i => i == 1 && k == [1]);
      var y: seq<Bytes> := [[]];
      && PartAtSecond(H, [0], [1]) && ValuesOk([Data], y)
      && OpOk([Data], Op.Set([1], [Some([7])])) && Overwrite(y, [Some([7])]) != y
  {
    var y: seq<Bytes> := [[]];
    assert Overwrite(y, [Some([7])])[0] == [7];
  }
}
