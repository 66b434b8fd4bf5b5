/** Scopes say which part of the tree a collection keeps; collecting prunes the rest. */
module Scopes {
  import opened Fields
  import opened Trie
  import opened Mapping
  import opened Canonical
  import ByteSlice

  datatype Mask = Mask(value: Bytes, bits: nat)

  datatype Scope = Scope(masks: seq<Mask>, all: bool)

  const SCOPE_ALL := Scope([], true)
  const SCOPE_NONE := Scope([], false)

  ghost predicate ScopeOk(s: Scope) {
    forall m :: m in s.masks ==> m.bits <= BITS && m.bits <= 8 * |m.value|
  }

  /** The first `bits` bits of the path agree with the mask, as far as the mask goes. */
  ghost predicate MaskMatch(m: Mask, p: Path, bits: nat)
    requires bits <= |p| && m.bits <= 8 * |m.value|
  {
    forall i :: 0 <= i < bits && i < m.bits ==> p[i] == ByteSlice.Bit(m.value, i)
  }

  ghost predicate ScopeMatch(s: Scope, p: Path, bits: nat)
    requires bits <= |p| && ScopeOk(s)
  {
    if s.masks == [] then s.all else exists m :: m in s.masks && MaskMatch(m, p, bits)
  }

  /** The bits of a path buffer up to the one last written spell the path `p`. */
  ghost predicate Spells(path: Bytes, p: Path) {
    |p| <= 8 * |path| && forall i :: 0 <= i < |p| ==> ByteSlice.Bit(path, i) == p[i]
  }

  method MatchScope(s: Scope, path: Bytes, bits: nat, ghost p: Path) returns (r: bool)
    requires ScopeOk(s) && bits <= |p| && Spells(path, p)
    ensures r <==> ScopeMatch(s, p, bits)
  {
    if |s.masks| == 0 {
      return s.all;
    }
    for i := 0 to |s.masks|
      invariant forall j :: 0 <= j < i ==> !MaskMatch(s.masks[j], p, bits)
    {
      var m := s.masks[i];
      var same := ByteSlice.Match(path, m.value, if bits < m.bits then bits else m.bits);
      assert same <==> MaskMatch(m, p, bits);
      if same {
        return true;
      }
    }
    return false;
  }

  // ---- collecting ----

  function Prune(t: Tree): Tree {
    Leaf(t.d.(known := false, key := [], values := []))
  }

  /** What Collect does at and below the node at path `p`. */
  ghost function CollectAt(s: Scope, t: Tree, p: Path): Tree
    requires ScopeOk(s)
    decreases t
  {
    if !t.d.known then t
    else if |p| >= 2 && !ScopeMatch(s, p, |p| - 2) then Prune(t)
    else match t
      case Leaf(_) => t
      case Inner(d, l, r) => Inner(d, CollectAt(s, l, p + [false]), CollectAt(s, r, p + [true]))
  }

  ghost function Collect(s: Scope, t: Tree): Tree
    requires ScopeOk(s)
  {
    if !t.d.known || t.Leaf? then t
    else if s == SCOPE_NONE then Prune(t)
    else Inner(t.d, CollectAt(s, t.left, [false]), CollectAt(s, t.right, [true]))
  }

  lemma {:induction false} CollectAllAt(t: Tree, p: Path)
    ensures CollectAt(SCOPE_ALL, t, p) == t
  {
    if t.Inner? && t.d.known {
      CollectAllAt(t.left, p + [false]);
      CollectAllAt(t.right, p + [true]);
    }
  }

  lemma CollectAll(t: Tree)
    ensures Collect(SCOPE_ALL, t) == t
  {
    if t.Inner? {
      CollectAllAt(t.left, [false]);
      CollectAllAt(t.right, [true]);
    }
  }

  /** The subtree at the end of a path, if the path leads to a node. */
  ghost function At(t: Tree, p: Path): Option<Tree> {
    if p == [] then Some(t)
    else if t.Leaf? then None
    else At(Child(t, p[0]), p[1..])
  }

  /** The path leads to a known node. */
  ghost predicate KnownAt(t: Tree, p: Path) {
    At(t, p).Some? && At(t, p).value.d.known
  }

  /** Known nodes have known ancestors. */
  ghost predicate Connected(t: Tree) {
    t.Inner? ==> t.d.known && Connected(t.left) && Connected(t.right)
  }

  /** The two uppermost levels are always in scope; a node further down is judged by its
      path without the last two bits. */
  ghost predicate InScope(s: Scope, x: Path, depth: nat)
    requires depth <= |x| && ScopeOk(s)
  {
    depth >= 2 ==> ScopeMatch(s, x, depth - 2)
  }

  lemma InScopeAbove(s: Scope, x: Path, a: nat, b: nat)
    requires ScopeOk(s) && a <= b <= |x| && InScope(s, x, b)
    ensures InScope(s, x, a)
  {
    if a >= 2 && s.masks != [] {
      var m :| m in s.masks && MaskMatch(m, x, b - 2);
      assert MaskMatch(m, x, a - 2);
    }
  }

  lemma ScopeOfPrefix(s: Scope, p: Path, x: Path)
    requires ScopeOk(s) && p <= x
    ensures InScope(s, p, |p|) <==> InScope(s, x, |p|)
  {
    if |p| >= 2 && s.masks != [] {
      if ScopeMatch(s, p, |p| - 2) {
        var m :| m in s.masks && MaskMatch(m, p, |p| - 2);
        assert MaskMatch(m, x, |p| - 2);
      }
      if ScopeMatch(s, x, |p| - 2) {
        var m :| m in s.masks && MaskMatch(m, x, |p| - 2);
        assert MaskMatch(m, p, |p| - 2);
      }
    }
  }

  /** Collecting below the node at `p` keeps exactly the known nodes that are in scope. */
  lemma {:induction false} CollectAtExact(s: Scope, t: Tree, p: Path, x: Path)
    requires ScopeOk(s) && Connected(t) && p <= x
    ensures KnownAt(CollectAt(s, t, p), x[|p|..]) <==> KnownAt(t, x[|p|..]) && InScope(s, x, |x|)
    ensures KnownAt(CollectAt(s, t, p), x[|p|..]) ==>
      At(CollectAt(s, t, p), x[|p|..]).value.d == At(t, x[|p|..]).value.d
    decreases |x| - |p|
  {
    ScopeOfPrefix(s, p, x);
    if InScope(s, x, |x|) {
      InScopeAbove(s, x, |p|, |x|);
    }
    if |p| < |x| {
      var b := x[|p|];
      assert p + [b] <= x;
      assert x[|p|..][1..] == x[|p + [b]|..];
      if t.Inner? {
        CollectAtExact(s, Child(t, b), p + [b], x);
      }
    } else {
      assert p == x && x[|p|..] == [];
    }
  }

  /** Collecting keeps exactly the known nodes that are in scope, with all their data. */
  lemma CollectExact(s: Scope, t: Tree, x: Path)
    requires ScopeOk(s) && Connected(t) && s != SCOPE_NONE && t.Inner?
    ensures KnownAt(Collect(s, t), x) <==> KnownAt(t, x) && InScope(s, x, |x|)
    ensures KnownAt(Collect(s, t), x) ==> At(Collect(s, t), x).value.d == At(t, x).value.d
  {
    if x != [] {
      assert x[..1] == [x[0]] <= x;
      CollectAtExact(s, Child(t, x[0]), [x[0]], x);
    }
  }

  /** A path whose leading bits agree with a mask. */
  ghost predicate Inside(m: Mask, q: Path)
    requires m.bits <= 8 * |m.value|
  {
    m.bits <= |q| && forall i :: 0 <= i < m.bits ==> q[i] == ByteSlice.Bit(m.value, i)
  }

  /** For every key path inside some mask, the known nodes on the path and the known
      siblings of nodes on the path survive. */
  lemma CollectKeepsMasked(s: Scope, m: Mask, q: Path, t: Tree, x: Path)
    requires ScopeOk(s) && Connected(t) && t.Inner? && m in s.masks && Inside(m, q)
    requires 0 < |x| <= |q| && x[..|x| - 1] == q[..|x| - 1] && KnownAt(t, x)
    ensures KnownAt(Collect(s, t), x) && At(Collect(s, t), x).value.d == At(t, x).value.d
  {
    CollectExact(s, t, x);
    if |x| >= 2 {
      forall i | 0 <= i < |x| - 2 && i < m.bits ensures x[i] == ByteSlice.Bit(m.value, i) {
        assert x[i] == x[..|x| - 1][i] == q[..|x| - 1][i] == q[i];
      }
      assert MaskMatch(m, x, |x| - 2);
    }
  }
}
