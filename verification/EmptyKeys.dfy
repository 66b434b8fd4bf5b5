/** The empty key: Add refuses it, Set and Remove look for it. Placeholders are leaves with the
    empty key, so that the two may find one. */
module EmptyKeys {
  import opened Fields
  import opened Trie
  import opened Mapping
  import opened Canonical

  /** The node at the end of a path. */
  function EndOf(t: Tree, q: Digest, depth: nat): Tree
    decreases t
  {
    if t.Leaf? || depth >= BITS then t else EndOf(Child(t, q[depth]), q, depth + 1)
  }

  /** The change leaves the values of a placeholder as they are. */
  ghost predicate Idle(fs: seq<Field>, change: seq<Option<Bytes>>) {
    Overwrite(Placeholders(fs), change) == Placeholders(fs)
  }

  /** What Full says of the subtree at path `p`. */
  ghost predicate FullAt(fs: seq<Field>, H: Hasher, t: Tree, p: Path) {
    && FullyKnown(t) && Placed(fs, H, t, p) && Settled(fs, t) && Tidy(fs, t) && Clean(t)
    && if p == [] then t.Inner? && Canon(t.left) && Canon(t.right) else Canon(t)
  }

  /** A placeholder with other values: the pairs are the same, the label is not. */
  ghost predicate Spoilt(fs: seq<Field>, t: Tree, t': Tree) {
    Stored(t') == Stored(t) && !Tidy(fs, t') && t'.d.lbl != t.d.lbl && t'.d.known
  }

  lemma FullChild(fs: seq<Field>, H: Hasher, t: Tree, p: Path, b: bool)
    requires FullAt(fs, H, t, p) && t.Inner?
    ensures FullAt(fs, H, Child(t, b), p + [b])
  {
  }

  lemma EndBelow(fs: seq<Field>, H: Hasher, t: Tree, p: Path)
    requires FullAt(fs, H, t, p) && t.Inner? && p <= H([])
    ensures |p| < BITS && t.left.d.known && t.right.d.known
    ensures EndOf(t, H([]), |p|) == EndOf(Child(t, H([])[|p|]), H([]), |p + [H([])[|p|]]|)
    ensures p + [H([])[|p|]] <= H([])
  {
    assert FullyKnown(t.left) && FullyKnown(t.right);
  }

  lemma UpdateIdle(fs: seq<Field>, t: Tree)
    requires t.Inner? && FullyKnown(t) && Settled(fs, t)
    ensures Update(fs, t) == t
  {
  }

  lemma UpdateSpoilt(fs: seq<Field>, t: Tree, b: bool, c: Tree)
    requires t.Inner? && FullyKnown(t) && Settled(fs, t) && Spoilt(fs, Child(t, b), c) && ValuesOk(fs, c.d.values)
    ensures Spoilt(fs, t, Update(fs, WithChild(t, b, c)))
  {
    SettledValues(fs, t.left);
    SettledValues(fs, t.right);
  }

  lemma {:induction false} SetEmptyAt(fs: seq<Field>, H: Hasher, change: seq<Option<Bytes>>, t: Tree, p: Path)
    requires t.Inner? && FullAt(fs, H, t, p) && p <= H([]) && OpOk(fs, Op.Set([], change))
    ensures
      var r := Edit(fs, H, false, Op.Set([], change), t, |p|);
      if !IsPlaceholder(EndOf(t, H([]), |p|)) then r == Err(KeyNotFound)
      else r.Ok? && if Idle(fs, change) then r.tree == t else Spoilt(fs, t, r.tree)
    decreases BITS - |p|
  {
    EndBelow(fs, H, t, p);
    var op, b := Op.Set([], change), H([])[|p|];
    var c := Child(t, b);
    FullChild(fs, H, t, p, b);
    FullChild(fs, H, t, p, !b);
    var r := EditChild(fs, H, false, op, c, |p| + 1);
    if c.Inner? {
      SetEmptyAt(fs, H, change, c, p + [b]);
    } else if IsPlaceholder(c) {
      OverwriteOk(fs, change);
    }
    if r.Ok? {
      EditChildSettled(fs, H, op, c, p + [b]);
      assert WithChild(t, b, c) == t;
      if Idle(fs, change) {
        UpdateIdle(fs, t);
      } else {
        SettledValues(fs, r.tree);
        UpdateSpoilt(fs, t, b, r.tree);
      }
    }
  }

  lemma OverwriteOk(fs: seq<Field>, change: seq<Option<Bytes>>)
    requires OpOk(fs, Op.Set([], change))
    ensures |Overwrite(Placeholders(fs), change)| == |fs|
  {
  }

  lemma {:induction false} RemoveEmptyAt(fs: seq<Field>, H: Hasher, t: Tree, p: Path)
    requires t.Inner? && FullAt(fs, H, t, p) && p <= H([])
    ensures
      var r := Edit(fs, H, false, Op.Remove([]), t, |p|);
      r == if IsPlaceholder(EndOf(t, H([]), |p|)) then Ok(t) else Err(KeyNotFound)
    decreases BITS - |p|
  {
    EndBelow(fs, H, t, p);
    var b := H([])[|p|];
    var c := Child(t, b);
    FullChild(fs, H, t, p, b);
    if c.Inner? {
      RemoveEmptyAt(fs, H, c, p + [b]);
    }
    assert WithChild(t, b, c) == t;
    UpdateIdle(fs, t);
  }

  /** Set of the empty key succeeds exactly if the path of that key ends at a placeholder. The
      map stays, but the invariant of the tests does so exactly if the change writes the values
      that placeholders have anyway; otherwise the root label is another one for the same map. */
  lemma SetEmpty(fs: seq<Field>, H: Hasher, change: seq<Option<Bytes>>, t: Tree)
    requires Full(fs, H, t) && OpOk(fs, Op.Set([], change))
    ensures
      var op := Op.Set([], change);
      var t' := After(fs, H, false, op, t);
      && (Apply(fs, H, false, op, t).Ok? <==> IsPlaceholder(EndOf(t, H([]), 0)))
      && (Apply(fs, H, false, op, t).Ok? ==>
            && Stored(t') == Stored(t) && (Full(fs, H, t') <==> Idle(fs, change))
            && (t'.d.lbl == t.d.lbl <==> Idle(fs, change)))
  {
    SetEmptyAt(fs, H, change, t, []);
  }

  /** Remove of the empty key succeeds in the same case, and changes nothing. */
  lemma RemoveEmpty(fs: seq<Field>, H: Hasher, t: Tree)
    requires Full(fs, H, t)
    ensures Apply(fs, H, false, Op.Remove([]), t) ==
      if IsPlaceholder(EndOf(t, H([]), 0)) then Ok(t) else Err(KeyNotFound)
  {
    RemoveEmptyAt(fs, H, t, []);
  }

  /** So it is with a new collection: one Set of the empty key, and its label is no longer that
      of an empty map. */
  lemma EmptySpoilt(H: Hasher)
    ensures
      var t := Empty([Data]);
      var t' := After([Data], H, false, Op.Set([], [Some([1])]), t);
      Stored(t') == Stored(t) && t'.d.lbl != t.d.lbl
  {
    EmptyFull([Data], H);
    SetEmpty([Data], H, [Some([1])], Empty([Data]));
    assert Overwrite(Placeholders([Data]), [Some([1])])[0] == [1];
  }
}
