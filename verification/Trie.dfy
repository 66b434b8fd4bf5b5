/** The tree of a collection as a value: what each node stores, and what Add, Set and
    Remove do to it. A key sits at the end of a path that spells its hash bit by bit;
    `H` is the hash of keys (SHA-256 in the implementation), taken as a parameter. */
module Trie {
  import opened Fields

  const BITS: nat := 256

  type Path = seq<bool>
  type Digest = d: Path | |d| == BITS witness seq(BITS, i => false)
  type Hasher = Bytes -> Digest

  /** The hash of a node, as the term that is hashed: two nodes have the same label only
      if the same data was hashed, and no label is the all-zero array. */
  datatype Label = Zero | Hash(isLeaf: bool, key: Bytes, values: seq<Bytes>, left: Label, right: Label)

  /** What a node stores besides its links; `dirty` is the flag `inconsistent`. */
  datatype NodeData = NodeData(known: bool, lbl: Label, key: Bytes, values: seq<Bytes>, dirty: bool)

  /** A node without children is a leaf, a placeholder, or (if not known) a stub. */
  datatype Tree = Leaf(d: NodeData) | Inner(d: NodeData, left: Tree, right: Tree)

  datatype Error = EmptyKey | UnknownSubtree | KeyCollision | KeyNotFound | HashCollision

  datatype Result = Ok(tree: Tree) | Err(error: Error)

  // ---- single nodes ----

  function LeafLabel(key: Bytes, values: seq<Bytes>): Label {
    Hash(true, key, values, Zero, Zero)
  }

  function InnerLabel(values: seq<Bytes>, left: Label, right: Label): Label {
    Hash(false, [], values, left, right)
  }

  predicate IsPlaceholder(t: Tree) {
    t.Leaf? && t.d.key == []
  }

  function Child(t: Tree, step: bool): Tree
    requires t.Inner?
  {
    if step then t.right else t.left
  }

  function WithChild(t: Tree, step: bool, c: Tree): Tree
    requires t.Inner?
  {
    if step then t.(right := c) else t.(left := c)
  }

  /** A node as it is after setPlaceholder; it keeps its flag. */
  function PlaceholderData(fs: seq<Field>, dirty: bool): NodeData {
    NodeData(true, LeafLabel([], Placeholders(fs)), [], Placeholders(fs), dirty)
  }

  ghost predicate CanUpdate(fs: seq<Field>, t: Tree) {
    t.d.known && (t.Inner? ==>
      t.left.d.known && t.right.d.known && ValuesOk(fs, t.left.d.values) && ValuesOk(fs, t.right.d.values))
  }

  /** What update makes of a node; a node that cannot be updated stays as it is. */
  ghost function Update(fs: seq<Field>, t: Tree): Tree {
    if !CanUpdate(fs, t) then t
    else match t
      case Leaf(d) => Leaf(d.(lbl := LeafLabel(d.key, d.values)))
      case Inner(d, l, r) =>
        var vs := ParentValues(fs, l.d.values, r.d.values);
        Inner(d.(values := vs, lbl := InnerLabel(vs, l.d.lbl, r.d.lbl)), l, r)
  }

  // ---- the three manipulators ----

  datatype Op =
    | Add(key: Bytes, raw: seq<Bytes>)
    | Set(key: Bytes, change: seq<Option<Bytes>>)   // None stands for Same
    | Remove(key: Bytes)

  ghost predicate OpOk(fs: seq<Field>, op: Op) {
    match op
    case Add(_, raw) => ValuesOk(fs, raw)
    case Set(_, change) =>
      |change| == |fs| && forall i :: 0 <= i < |fs| && change[i].Some? ==> WellFormed(fs[i], change[i].value)
    case Remove(_) => true
  }

  function Overwrite(values: seq<Bytes>, change: seq<Option<Bytes>>): seq<Bytes> {
    seq(|values|, i requires 0 <= i < |values| =>
      if i < |change| && change[i].Some? then change[i].value else values[i])
  }

  /** A leaf that has to make room: it becomes an internal node with itself on the side
      `step` and a placeholder on the other. Its own label and values are dead until it is
      next relabelled, and are not recorded here. */
  function Split(fs: seq<Field>, d: NodeData, step: bool): (t: Tree)
    ensures t.Inner?
  {
    var kept := Leaf(NodeData(true, d.lbl, d.key, d.values, false));
    var other := Leaf(PlaceholderData(fs, false));
    var top := d.(lbl := Zero, key := [], values := []);
    if step then Inner(top, other, kept) else Inner(top, kept, other)
  }

  predicate Collapsible(l: Tree, r: Tree) {
    (IsPlaceholder(l) && r.Leaf?) || (IsPlaceholder(r) && l.Leaf?)
  }

  /** A node takes over its one remaining child. */
  function Lift(d: NodeData, l: Tree, r: Tree): Tree {
    var c := if IsPlaceholder(l) then r else l;
    Leaf(d.(lbl := c.d.lbl, key := c.d.key, values := c.d.values))
  }

  /** What one step of the way back to the root does to a node with new children:
      inside a transaction it is flagged, otherwise it is relabelled. */
  ghost function Finish(fs: seq<Field>, lazy: bool, t: Tree): Tree
    requires t.Inner?
  {
    if lazy then t.(d := t.d.(dirty := true)) else Update(fs, t)
  }

  ghost function Rebuild(fs: seq<Field>, lazy: bool, op: Op, depth: nat, t: Tree): Tree
    requires t.Inner?
  {
    if op.Remove? && depth > 0 && Collapsible(t.left, t.right) then Lift(t.d, t.left, t.right)
    else Finish(fs, lazy, t)
  }

  /** What a manipulator does at and below node `t`, which is `depth` steps from the root. */
  ghost function Edit(fs: seq<Field>, H: Hasher, lazy: bool, op: Op, t: Tree, depth: nat): Result
    requires t.Inner?
    decreases BITS - depth, 1
  {
    if !t.left.d.known || !t.right.d.known then Err(UnknownSubtree)
    else if depth >= BITS then Err(HashCollision)
    else
      var step := H(op.key)[depth];
      match EditChild(fs, H, lazy, op, Child(t, step), depth + 1)
      case Ok(c) => Ok(Rebuild(fs, lazy, op, depth, WithChild(t, step, c)))
      case Err(e) => Err(e)
  }

  ghost function EditChild(fs: seq<Field>, H: Hasher, lazy: bool, op: Op, c: Tree, depth: nat): Result
    decreases BITS - depth, 2
  {
    if c.Inner? then Edit(fs, H, lazy, op, c, depth)
    else if op.Add? && c.d.key == [] then
      Ok(Leaf(c.d.(key := op.key, values := op.raw, lbl := LeafLabel(op.key, op.raw))))
    else if op.Add? then
      if c.d.key == op.key then Err(KeyCollision)
      else if depth >= BITS then Err(HashCollision)
      else Edit(fs, H, lazy, op, Split(fs, c.d, H(c.d.key)[depth]), depth)
    else if c.d.key != op.key then Err(KeyNotFound)
    else if op.Remove? then Ok(Leaf(PlaceholderData(fs, c.d.dirty)))
    else
      var vs := Overwrite(c.d.values, op.change);
      Ok(Leaf(c.d.(values := vs, lbl := LeafLabel(c.d.key, vs))))
  }

  /** Add, Set and Remove on a whole tree. Only Add looks at whether the key is empty. */
  ghost function Apply(fs: seq<Field>, H: Hasher, lazy: bool, op: Op, t: Tree): Result {
    if op.Add? && op.key == [] then Err(EmptyKey)
    else if !t.d.known || t.Leaf? then Err(UnknownSubtree)
    else Edit(fs, H, lazy, op, t, 0)
  }

  /** The tree after a call, whatever it returned: an error leaves the tree as it was. */
  ghost function After(fs: seq<Field>, H: Hasher, lazy: bool, op: Op, t: Tree): Tree {
    match Apply(fs, H, lazy, op, t)
    case Ok(t') => t'
    case Err(_) => t
  }

  ghost function Run(fs: seq<Field>, H: Hasher, lazy: bool, ops: seq<Op>, t: Tree): Tree {
    if ops == [] then t else Run(fs, H, lazy, ops[1..], After(fs, H, lazy, ops[0], t))
  }

  /** The tree of a new collection. */
  ghost function Empty(fs: seq<Field>): Tree {
    var p := Leaf(PlaceholderData(fs, false));
    Update(fs, Inner(NodeData(true, Zero, [], [], false), p, p))
  }
}
