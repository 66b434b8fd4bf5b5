/** What kind of node sits at the end of each path, after any calls on a new collection. */
module Shape {
  import opened Fields
  import opened Trie
  import opened Mapping
  import opened Canonical
  import opened Scopes

  /** The stored keys whose hash begins with the path. */
  ghost function KeysBelow(H: Hasher, m: Contents, p: Path): set<Bytes> {
    set k | k in m && p <= H(k)
  }

  lemma {:induction false} SubtreeKeys(fs: seq<Field>, H: Hasher, t: Tree, p: Path, x: Path)
    requires FullyKnown(t) && Placed(fs, H, t, p) && Canon(t) && At(t, x).Some?
    ensures
      var n := At(t, x).value;
      && FullyKnown(n) && Placed(fs, H, n, p + x) && Canon(n)
      && Stored(n).Keys == KeysBelow(H, Stored(t), p + x)
    decreases |x|
  {
    if x == [] {
      assert p + x == p;
      StoredPlaced(fs, H, t, p);
    } else {
      var b := x[0];
      assert p + [b] + x[1..] == p + x;
      SubtreeKeys(fs, H, Child(t, b), p + [b], x[1..]);
      SidesDisjoint(fs, H, t, p);
      assert (p + x)[|p|] == b;
      forall k | k in Stored(t) && p + x <= H(k) ensures k in Stored(Child(t, b)) {
        assert H(k)[|p|] == b;
      }
    }
  }

  lemma {:induction false} SubtreeValues(fs: seq<Field>, H: Hasher, t: Tree, p: Path, x: Path)
    requires Placed(fs, H, t, p) && At(t, x).Some?
    ensures forall k :: k in Stored(At(t, x).value) ==> k in Stored(t) && Stored(t)[k] == Stored(At(t, x).value)[k]
    decreases |x|
  {
    if x != [] {
      SubtreeValues(fs, H, Child(t, x[0]), p + [x[0]], x[1..]);
      SidesDisjoint(fs, H, t, p);
    }
  }

  /** The kind of a node, and what it stores, by the keys below its path. */
  ghost predicate RightKind(H: Hasher, m: Contents, p: Path, n: Tree) {
    var below := KeysBelow(H, m, p);
    && (n.Inner? <==> |below| >= 2)
    && (n.Leaf? && n.d.key != [] <==> |below| == 1)
    && (IsPlaceholder(n) <==> |below| == 0)
    && (n.Leaf? && n.d.key != [] ==> below == {n.d.key} && n.d.key in m && n.d.values == m[n.d.key])
  }

  lemma BelowChild(fs: seq<Field>, H: Hasher, t: Tree, p: Path)
    requires t.Inner? && Placed(fs, H, t, []) && p != []
    ensures KeysBelow(H, Stored(Child(t, p[0])), p) == KeysBelow(H, Stored(t), p)
    ensures forall k :: k in Stored(Child(t, p[0])) ==> k in Stored(t) && Stored(t)[k] == Stored(Child(t, p[0]))[k]
  {
    SidesDisjoint(fs, H, t, []);
    forall k | k in Stored(t) && p <= H(k) ensures k in Stored(Child(t, p[0])) {
      assert H(k)[0] == p[0];
    }
  }

  lemma KindOfNode(fs: seq<Field>, H: Hasher, n: Tree, p: Path, m: Contents)
    requires FullyKnown(n) && Placed(fs, H, n, p) && Canon(n) && Stored(n).Keys == KeysBelow(H, m, p)
    requires forall k :: k in Stored(n) ==> k in m && m[k] == Stored(n)[k]
    ensures RightKind(H, m, p, n)
  {
    KindByCount(fs, H, n, p);
    assert |Stored(n)| == |Stored(n).Keys|;
    if n.Leaf? && n.d.key != [] {
      assert Stored(n).Keys == {n.d.key};
      assert n.d.key in Stored(n);
    }
  }

  lemma ShapeOfFull(fs: seq<Field>, H: Hasher, t: Tree, p: Path)
    requires Full(fs, H, t) && p != [] && At(t, p).Some?
    ensures RightKind(H, Stored(t), p, At(t, p).value)
  {
    hide RightKind, Stored, KeysBelow;
    var b := p[0];
    assert [] + [b] == [b] && [b] + p[1..] == p;
    SubtreeKeys(fs, H, Child(t, b), [b], p[1..]);
    SubtreeValues(fs, H, Child(t, b), [b], p[1..]);
    BelowChild(fs, H, t, p);
    KindOfNode(fs, H, At(t, p).value, p, Stored(t));
  }

  /** After any calls, some of which may fail, a node other than the root is internal exactly if at
      least two stored keys extend its path, the leaf of a key if exactly that one does, and a
      placeholder if none does. */
  lemma ShapeOfRun(fs: seq<Field>, H: Hasher, ops: seq<Op>, keys: set<Bytes>, p: Path)
    requires Separates(H, keys) && OpsOk(fs, ops, keys) && p != []
    requires At(Run(fs, H, false, ops, Empty(fs)), p).Some?
    ensures RightKind(H, MapRun(ops, map[]), p, At(Run(fs, H, false, ops, Empty(fs)), p).value)
  {
    EmptyFull(fs, H);
    RunFull(fs, H, ops, Empty(fs), keys);
    ShapeOfFull(fs, H, Run(fs, H, false, ops, Empty(fs)), p);
  }
}
