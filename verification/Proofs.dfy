/** Proofs of presence and absence: what the getters produce, and what a consistent proof
    under a given root label establishes about the collection with that root label. */
module Proofs {
  import opened Fields
  import opened Trie
  import opened Mapping
  import opened Canonical

  datatype Dump = Dump(key: Bytes, values: seq<Bytes>, left: Label, right: Label, lbl: Label)

  datatype Step = Step(left: Dump, right: Dump)

  datatype Proof = Proof(key: Bytes, root: Dump, steps: seq<Step>)

  function DumpNode(t: Tree): Dump {
    match t
    case Leaf(d) => Dump(d.key, d.values, Zero, Zero, d.lbl)
    case Inner(d, l, r) => Dump([], d.values, l.d.lbl, r.d.lbl, d.lbl)
  }

  predicate DumpLeaf(d: Dump) {
    d.left == Zero && d.right == Zero
  }

  predicate DumpConsistent(d: Dump) {
    d.lbl == if DumpLeaf(d) then LeafLabel(d.key, d.values) else InnerLabel(d.values, d.left, d.right)
  }

  function Side(s: Step, right: bool): Dump {
    if right then s.right else s.left
  }

  /** The chain of dumps from `cursor` on. A proof with a step for which the path has no
      bit left crashes the implementation; here it is not consistent. */
  predicate ConsistentFrom(q: Digest, cursor: Dump, steps: seq<Step>, depth: nat)
    decreases |steps|
  {
    if steps == [] then DumpLeaf(cursor)
    else
      && cursor.left == steps[0].left.lbl && cursor.right == steps[0].right.lbl
      && DumpConsistent(steps[0].left) && DumpConsistent(steps[0].right)
      && depth < BITS
      && ConsistentFrom(q, Side(steps[0], q[depth]), steps[1..], depth + 1)
  }

  predicate Consistent(H: Hasher, pf: Proof) {
    pf.steps != [] && DumpConsistent(pf.root) && ConsistentFrom(H(pf.key), pf.root, pf.steps, 0)
  }

  predicate Match(H: Hasher, pf: Proof)
    requires |pf.steps| <= BITS
  {
    pf.steps != [] && pf.key == Side(pf.steps[|pf.steps| - 1], H(pf.key)[|pf.steps| - 1]).key
  }

  function RawValues(H: Hasher, pf: Proof): Option<seq<Bytes>>
    requires |pf.steps| <= BITS
  {
    if Match(H, pf) then Some(Side(pf.steps[|pf.steps| - 1], H(pf.key)[|pf.steps| - 1]).values) else None
  }

  // ---- soundness ----

  ghost function Last(q: Digest, cursor: Dump, steps: seq<Step>, depth: nat): Dump
    requires depth + |steps| <= BITS
    decreases |steps|
  {
    if steps == [] then cursor else Last(q, Side(steps[0], q[depth]), steps[1..], depth + 1)
  }

  lemma {:induction false} ConsistentShort(q: Digest, cursor: Dump, steps: seq<Step>, depth: nat)
    requires ConsistentFrom(q, cursor, steps, depth) && depth <= BITS
    ensures depth + |steps| <= BITS
    decreases |steps|
  {
    if steps != [] {
      ConsistentShort(q, Side(steps[0], q[depth]), steps[1..], depth + 1);
    }
  }

  lemma {:induction false} LastIsLastStep(q: Digest, cursor: Dump, steps: seq<Step>, depth: nat)
    requires depth + |steps| <= BITS && steps != []
    ensures Last(q, cursor, steps, depth) == Side(steps[|steps| - 1], q[depth + |steps| - 1])
    decreases |steps|
  {
    if |steps| > 1 {
      LastIsLastStep(q, Side(steps[0], q[depth]), steps[1..], depth + 1);
    }
  }

  /** A consistent dump under a node's label has that node's data. */
  lemma DumpIsNode(fs: seq<Field>, d: Dump, t: Tree)
    requires DumpConsistent(d) && Settled(fs, t) && t.d.known && d.lbl == t.d.lbl
    ensures d.values == t.d.values && DumpLeaf(d) == t.Leaf?
    ensures t.Leaf? ==> d.key == t.d.key
    ensures t.Inner? ==> d.left == t.left.d.lbl && d.right == t.right.d.lbl
  {
  }

  /** A consistent chain that starts at a node's label ends at the leaf on the key's path. */
  lemma {:induction false} WalkSound(
      fs: seq<Field>, H: Hasher, key: Bytes, cursor: Dump, steps: seq<Step>, t: Tree, p: Path)
    requires FullyKnown(t) && Placed(fs, H, t, p) && Settled(fs, t) && key != [] && p <= H(key)
    requires DumpConsistent(cursor) && cursor.lbl == t.d.lbl
    requires ConsistentFrom(H(key), cursor, steps, |p|) && |p| + |steps| <= BITS
    ensures
      var d := Last(H(key), cursor, steps, |p|);
      if d.key == key then key in Stored(t) && Stored(t)[key] == d.values else key !in Stored(t)
    decreases |steps|
  {
    DumpIsNode(fs, cursor, t);
    if steps != [] {
      var step := H(key)[|p|];
      SidesDisjoint(fs, H, t, p);
      WalkSound(fs, H, key, Side(steps[0], step), steps[1..], Child(t, step), p + [step]);
    }
  }

  /** Any proof whatever that is consistent and carries the root label of a collection says
      exactly whether its key is stored there, and with which values. */
  lemma ProofSound(fs: seq<Field>, H: Hasher, t: Tree, pf: Proof)
    requires FullyKnown(t) && Placed(fs, H, t, []) && Settled(fs, t)
    requires Consistent(H, pf) && pf.root.lbl == t.d.lbl && pf.key != []
    ensures |pf.steps| <= BITS
    ensures Match(H, pf) <==> pf.key in Stored(t)
    ensures RawValues(H, pf) == if pf.key in Stored(t) then Some(Stored(t)[pf.key]) else None
  {
    ConsistentShort(H(pf.key), pf.root, pf.steps, 0);
    LastIsLastStep(H(pf.key), pf.root, pf.steps, 0);
    WalkSound(fs, H, pf.key, pf.root, pf.steps, t, []);
  }

  // ---- what the getters produce ----

  datatype Lookup = Unknown | NoKey | Absent | Found(values: seq<Bytes>)

  function RecordAt(q: Digest, key: Bytes, t: Tree, depth: nat): Lookup
    decreases t
  {
    if !t.d.known then Unknown
    else match t
      case Leaf(d) => if d.key == key then Found(d.values) else Absent
      case Inner(_, l, r) =>
        if depth >= BITS then Unknown
        else if q[depth] then RecordAt(q, key, r, depth + 1)
        else RecordAt(q, key, l, depth + 1)
  }

  /** The outcome of looking up a key. */
  function Record(H: Hasher, t: Tree, key: Bytes): Lookup {
    if key == [] then NoKey else RecordAt(H(key), key, t, 0)
  }

  lemma {:induction false} RecordAtIsStored(fs: seq<Field>, H: Hasher, t: Tree, key: Bytes, p: Path)
    requires FullyKnown(t) && Placed(fs, H, t, p) && key != [] && p <= H(key)
    ensures RecordAt(H(key), key, t, |p|) == if key in Stored(t) then Found(Stored(t)[key]) else Absent
  {
    if t.Inner? {
      var step := H(key)[|p|];
      SidesDisjoint(fs, H, t, p);
      RecordAtIsStored(fs, H, Child(t, step), key, p + [step]);
    }
  }

  /** Looking up a key is looking it up in the map, during a transaction too. */
  lemma RecordIsStored(fs: seq<Field>, H: Hasher, t: Tree, key: Bytes)
    requires FullyKnown(t) && Placed(fs, H, t, []) && key != []
    ensures Record(H, t, key) == if key in Stored(t) then Found(Stored(t)[key]) else Absent
  {
    RecordAtIsStored(fs, H, t, key, []);
  }

  function StepsFrom(q: Digest, t: Tree, depth: nat): Option<seq<Step>>
    requires t.Inner?
    decreases t
  {
    if !t.left.d.known || !t.right.d.known || depth >= BITS then None
    else
      var s := Step(DumpNode(t.left), DumpNode(t.right));
      var c := Child(t, q[depth]);
      if c.Leaf? then Some([s])
      else match StepsFrom(q, c, depth + 1)
        case None => None
        case Some(rest) => Some([s] + rest)
  }

  function GetProof(H: Hasher, t: Tree, key: Bytes): Option<Proof> {
    if key == [] || !t.d.known || t.Leaf? then None
    else match StepsFrom(H(key), t, 0)
      case None => None
      case Some(steps) => Some(Proof(key, DumpNode(t), steps))
  }

  lemma DumpOfNode(fs: seq<Field>, t: Tree)
    requires Settled(fs, t) && FullyKnown(t)
    ensures DumpConsistent(DumpNode(t)) && DumpLeaf(DumpNode(t)) == t.Leaf?
  {
  }

  lemma {:induction false} StepsConsistent(fs: seq<Field>, H: Hasher, q: Digest, t: Tree, p: Path)
    requires t.Inner? && FullyKnown(t) && Settled(fs, t) && Placed(fs, H, t, p) && p <= q
    ensures StepsFrom(q, t, |p|).Some? && StepsFrom(q, t, |p|).value != []
    ensures ConsistentFrom(q, DumpNode(t), StepsFrom(q, t, |p|).value, |p|)
  {
    DumpOfNode(fs, t.left);
    DumpOfNode(fs, t.right);
    var step := q[|p|];
    var c := Child(t, step);
    if c.Inner? {
      StepsConsistent(fs, H, q, c, p + [step]);
    }
    var s := Step(DumpNode(t.left), DumpNode(t.right));
    var rest := if c.Inner? then StepsFrom(q, c, |p| + 1).value else [];
    assert StepsFrom(q, t, |p|).value == [s] + rest;
    assert ([s] + rest)[1..] == rest;
  }

  /** A collection that knows all its nodes can prove the presence or absence of any key. */
  lemma ProofComplete(fs: seq<Field>, H: Hasher, t: Tree, key: Bytes)
    requires t.Inner? && FullyKnown(t) && Placed(fs, H, t, []) && Settled(fs, t) && key != []
    ensures GetProof(H, t, key).Some?
    ensures
      var pf := GetProof(H, t, key).value;
      && pf.key == key && pf.root.lbl == t.d.lbl && Consistent(H, pf) && |pf.steps| <= BITS
      && (Match(H, pf) <==> Record(H, t, key).Found?)
      && (Match(H, pf) ==> Record(H, t, key) == Found(RawValues(H, pf).value))
  {
    DumpOfNode(fs, t);
    StepsConsistent(fs, H, H(key), t, []);
    ProofSound(fs, H, t, GetProof(H, t, key).value);
    RecordIsStored(fs, H, t, key);
  }
}
