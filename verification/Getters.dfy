/** Reading a collection: looking up a key, proving its presence or absence, and finding a
    leaf by stake. The tree is left as it is. */
module Getters {
  import opened Fields
  import opened Trie
  import opened Mapping
  import opened Canonical
  import opened Scopes
  import opened Layout
  import opened Store
  import opened StoreSteps
  import opened StoreWalk
  import opened StoreSweep
  import opened StoreMarks
  import opened Upkeep
  import opened Collections
  import opened Proofs
  import opened Navigators
  import ByteSlice

  /** What a node shows, inside a transaction too. */
  lemma Look(fs: seq<Field>, H: Hasher, scope: Scope, lazy: bool, s: Store, n: Node, p: Path, c: Cell)
    requires Proper(fs, H, scope, lazy, s) && Holds(s, n, p) && CellAt(s, n, c)
    ensures
      var t := Build(Now(s), p);
      && t.d.known == c.known && t.d.key == c.key && (t.Leaf? <==> c.left == null)
         && (c.left == null <==> c.right == null)
      && (t.Leaf? ==> c.values in s.slices && t.d.values == s.slices[c.values])
    ensures c.left != null ==> |p| < BITS && c.left in s.cells && c.right in s.cells
    ensures c.left != null ==> Holds(s, c.left, p + [false]) && Holds(s, c.right, p + [true])
    ensures c.left != null ==>
      Build(Now(s), p).left == Build(Now(s), p + [false]) && Build(Now(s), p).right == Build(Now(s), p + [true])
  {
    NodeShape(s, p);
    assert LentAt(s, lazy, [], 0, p, 0);
  }

  lemma Looked(c: Collection, n: Node, p: Path)
    requires c.Valid() && Holds(c.S(), n, p)
    ensures n in c.world && |p| <= BITS
    ensures
      var t := Build(Now(c.S()), p);
      && t.d.known == n.known && t.d.key == n.key && (t.Leaf? <==> n.left == null)
         && (n.left == null <==> n.right == null)
      && (t.Leaf? ==> t.d.values == n.values[..])
    ensures n.left != null ==> |p| < BITS && n.left in c.world && n.right in c.world
    ensures n.left != null ==> Holds(c.S(), n.left, p + [false]) && Holds(c.S(), n.right, p + [true])
    ensures n.left != null ==> Build(Now(c.S()), p).left == Build(Now(c.S()), p + [false])
    ensures n.left != null ==> Build(Now(c.S()), p).right == Build(Now(c.S()), p + [true])
  {
    hide Proper, Holds, Now, Build, CellAt;
    HoldsCell(c.S(), n, p);
    c.Shown(n);
    Look(c.fields, c.H, c.scope, c.ongoing, c.S(), n, p, n.Snapshot());
    c.ShownSlice(n.values);
  }

  lemma RootLooked(c: Collection)
    requires c.Valid()
    ensures Holds(c.S(), c.root, []) && c.T() == Build(Now(c.S()), [])
  {
    hide Proper, Holds, Now, Build;
    ProperRoot(c.fields, c.H, c.scope, c.ongoing, c.S());
    c.MapsShown();
  }

  /** Get(key).Record() */
  method Record(c: Collection, key: Bytes) returns (found: Lookup)
    requires c.Valid()
    ensures found == Proofs.Record(c.H, c.T(), key)
  {
    hide c.S, Proper, Holds, Now, Build, TreeNow;
    if key == [] {
      return NoKey;
    }
    var path := c.H(key);
    var depth: nat := 0;
    var cursor: Node := c.root;
    RootLooked(c);
    ghost var p: Path := [];
    while true
      invariant |p| == depth && Holds(c.S(), cursor, p)
      invariant RecordAt(path, key, Build(Now(c.S()), p), depth) == RecordAt(path, key, c.T(), 0)
      decreases BITS - depth
    {
      Looked(c, cursor, p);
      if !cursor.known {
        return Unknown;
      }
      if cursor.IsLeaf() {
        var same := ByteSlice.Equal(cursor.key, key);
        if same {
          return Found(cursor.values[..]);
        }
        return Absent;
      }
      p := p + [path[depth]];
      if path[depth] {
        cursor := cursor.right;
      } else {
        cursor := cursor.left;
      }
      depth := depth + 1;
    }
  }

  // ---- proofs ----

  lemma LookStill(fs: seq<Field>, H: Hasher, scope: Scope, s: Store, n: Node, p: Path, c: Cell)
    requires Proper(fs, H, scope, false, s) && Holds(s, n, p) && CellAt(s, n, c)
    ensures c.values in s.slices
    ensures Build(Now(s), p).d == NodeData(c.known, c.lbl, c.key, s.slices[c.values], c.inconsistent)
  {
    ProperStill(fs, H, scope, s);
    NodeShape(s, p);
  }

  /** Outside a transaction every node shows all its data. */
  lemma LookedStill(c: Collection, n: Node, p: Path)
    requires c.Valid() && !c.ongoing && Holds(c.S(), n, p)
    ensures n in c.world && n.values in c.arrays
    ensures Build(Now(c.S()), p).d == NodeData(n.known, n.lbl, n.key, n.values[..], n.inconsistent)
  {
    hide Proper, Holds, Now, Build, CellAt;
    HoldsCell(c.S(), n, p);
    c.Shown(n);
    LookStill(c.fields, c.H, c.scope, c.S(), n, p, n.Snapshot());
    c.ShownSlice(n.values);
  }

  /** dumpNode, with a copy of the values */
  method DumpOf(c: Collection, n: Node, ghost p: Path) returns (d: Dump)
    requires c.Valid() && !c.ongoing && Holds(c.S(), n, p)
    ensures d == DumpNode(Build(Now(c.S()), p))
  {
    hide c.S, Proper, Holds, Now, Build;
    LookedStill(c, n, p);
    Looked(c, n, p);
    if n.IsLeaf() {
      d := Dump(n.key, n.values[..], Zero, Zero, n.lbl);
    } else {
      LookedStill(c, n.left, p + [false]);
      LookedStill(c, n.right, p + [true]);
      d := Dump([], n.values[..], n.left.lbl, n.right.lbl, n.lbl);
    }
  }

  /** The steps so far, followed by those still to come. */
  ghost function Glue(steps: seq<Step>, rest: Option<seq<Step>>): Option<seq<Step>> {
    match rest
    case None => None
    case Some(more) => Some(steps + more)
  }

  lemma GlueStep(steps: seq<Step>, q: Digest, t: Tree, depth: nat)
    requires t.Inner? && t.left.d.known && t.right.d.known && depth < BITS
    ensures
      var s := Step(DumpNode(t.left), DumpNode(t.right));
      Glue(steps, StepsFrom(q, t, depth)) ==
        if Child(t, q[depth]).Leaf? then Some(steps + [s])
        else Glue(steps + [s], StepsFrom(q, Child(t, q[depth]), depth + 1))
  {
    var s := Step(DumpNode(t.left), DumpNode(t.right));
    var c := Child(t, q[depth]);
    if c.Inner? && StepsFrom(q, c, depth + 1).Some? {
      var rest := StepsFrom(q, c, depth + 1).value;
      assert steps + ([s] + rest) == (steps + [s]) + rest;
    }
  }

  /** Get(key).Proof(); None stands for an error */
  method Prove(c: Collection, key: Bytes) returns (pf: Option<Proof>)
    requires c.Valid() && !c.ongoing
    ensures pf == GetProof(c.H, c.T(), key)
  {
    hide c.S, Proper, Holds, Now, Build, TreeNow, StepsFrom, Glue, DumpNode;
    if key == [] {
      return None;
    }
    RootLooked(c);
    var rootDump := DumpOf(c, c.root, []);
    Looked(c, c.root, []);
    if !c.root.known {
      return None;
    }
    KnownRootInner(c);
    var steps;
    steps := Steps(c, c.H(key));
    pf := if steps == None then None else Some(Proof(key, rootDump, steps.value));
  }

  lemma KnownRootInner(c: Collection)
    requires c.Valid()
    ensures c.T().d.known ==> c.T().Inner?
  {
  }

  method Steps(c: Collection, path: Digest) returns (r: Option<seq<Step>>)
    requires c.Valid() && !c.ongoing && c.T().Inner?
    ensures r == StepsFrom(path, c.T(), 0)
  {
    hide c.S, Proper, Holds, Now, Build, TreeNow, StepsFrom, DumpNode;
    RootLooked(c);
    var steps: seq<Step> := [];
    var depth: nat := 0;
    var cursor: Node := c.root;
    ghost var p: Path := [];
    GlueNothing(StepsFrom(path, c.T(), 0));
    while true
      invariant |p| == depth && Holds(c.S(), cursor, p) && Build(Now(c.S()), p).Inner?
      invariant Glue(steps, StepsFrom(path, Build(Now(c.S()), p), depth)) == StepsFrom(path, c.T(), 0)
      decreases BITS - depth
    {
      Looked(c, cursor, p);
      Looked(c, cursor.left, p + [false]);
      Looked(c, cursor.right, p + [true]);
      if !cursor.left.known || !cursor.right.known {
        StepsStop(path, Build(Now(c.S()), p), depth);
        return None;
      }
      var l := DumpOf(c, cursor.left, p + [false]);
      var r := DumpOf(c, cursor.right, p + [true]);
      GlueStep(steps, path, Build(Now(c.S()), p), depth);
      steps := steps + [Step(l, r)];
      p := p + [path[depth]];
      if path[depth] {
        cursor := cursor.right;
      } else {
        cursor := cursor.left;
      }
      depth := depth + 1;
      Looked(c, cursor, p);
      if cursor.IsLeaf() {
        return Some(steps);
      }
    }
  }

  lemma GlueNothing(rest: Option<seq<Step>>)
    ensures Glue([], rest) == rest
  {
    if rest.Some? {
      assert [] + rest.value == rest.value;
    }
  }

  lemma StepsStop(q: Digest, t: Tree, depth: nat)
    requires t.Inner? && !(t.left.d.known && t.right.d.known)
    ensures StepsFrom(q, t, depth) == None
  {
  }

  // ---- navigating by stake ----

  /** Navigate of a field: what is left of the query is written back to it. */
  method Steer(f: Field, query: array<byte>, parent: Bytes, left: Bytes) returns (ok: bool, right: bool)
    modifies query
    ensures !ok ==> Navigate(f, old(query[..]), parent, left) == Direction.Error
    ensures ok ==> Navigate(f, old(query[..]), parent, left) == Go(right, query[..])
  {
    ok, right := false, false;
    if f.Data? {
      return;
    }
    if query.Length != 8 || |parent| != 8 {
      return;
    }
    var q := FromBytes(query[..]);
    if q >= FromBytes(parent) {
      return;
    }
    if |left| != 8 {
      return;
    }
    var l := FromBytes(left);
    if q >= l {
      var rest := ToBytes(q - l, 8);
      forall i | 0 <= i < 8 {
        query[i] := rest[i];
      }
      assert query[..] == rest;
      return true, true;
    }
    return true, false;
  }

  /** Navigate(field, value).Record(); the query is rewritten on the way. */
  method NavigateTo(c: Collection, field: nat, query: array<byte>) returns (landing: Landing)
    requires c.Valid() && !c.ongoing && field < |c.fields|
    modifies query
    ensures Settled(c.fields, c.T()) && landing == NavigateAt(c.fields, field, c.T(), old(query[..]))
  {
    hide c.S, Proper, Holds, Now, Build, TreeNow, Settled, Navigate;
    RootLooked(c);
    SettledTree(c);
    var cursor: Node := c.root;
    ghost var p: Path := [];
    while true
      invariant |p| <= BITS && Holds(c.S(), cursor, p) && Settled(c.fields, Build(Now(c.S()), p))
      invariant NavigateAt(c.fields, field, Build(Now(c.S()), p), query[..]) ==
        NavigateAt(c.fields, field, c.T(), old(query[..]))
      decreases BITS - |p|
    {
      Looked(c, cursor, p);
      LookedStill(c, cursor, p);
      SettledParts(c.fields, Build(Now(c.S()), p));
      if !cursor.known {
        return UnknownNode;
      }
      if cursor.IsLeaf() {
        return Landed(NodeData(cursor.known, cursor.lbl, cursor.key, cursor.values[..], cursor.inconsistent),
          query[..]);
      }
      LookedStill(c, cursor.left, p + [false]);
      LookedStill(c, cursor.right, p + [true]);
      if !cursor.left.known || !cursor.right.known {
        return UnknownNode;
      }
      var ok, right := Steer(c.fields[field], query, cursor.values[field], cursor.left.values[field]);
      if !ok {
        return BadQuery;
      }
      p := p + [right];
      if right {
        cursor := cursor.right;
      } else {
        cursor := cursor.left;
      }
    }
  }

  lemma SettledTree(c: Collection)
    requires c.Valid() && !c.ongoing
    ensures Settled(c.fields, c.T())
  {
  }

  lemma SettledParts(fs: seq<Field>, t: Tree)
    requires Settled(fs, t)
    ensures t.d.known ==> |t.d.values| == |fs|
    ensures t.Inner? ==> Settled(fs, t.left) && Settled(fs, t.right)
    ensures t.Inner? && t.left.d.known ==> |t.left.d.values| == |fs|
    ensures t.Inner? && t.right.d.known ==> |t.right.d.values| == |fs|
  {
  }
}
