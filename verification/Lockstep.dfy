/** A verifier that is fed proofs by the full collection stays in step with it: every update
    has the same outcome on both, and the root labels agree afterwards. */
module Lockstep {
  import opened Fields
  import opened Trie
  import opened Mapping
  import opened Canonical
  import opened Lazy
  import opened Proofs
  import opened Scopes
  import opened Verifiers

  /** The two children of a flagged node are known. */
  ghost predicate DirtyKnown(v: Tree) {
    v.Inner? ==>
      && (v.d.dirty ==> v.left.d.known && v.right.d.known)
      && DirtyKnown(v.left) && DirtyKnown(v.right)
  }

  ghost predicate SameEdit(r: Result, e: Result) {
    match r
    case Ok(v) => e.Ok? && View(v, e.tree) && v.d.known && DirtyKnown(v)
    case Err(x) => x != UnknownSubtree && e == Err(x)
  }

  /** One call, on a view that knows the path of its key and on the whole tree. */
  lemma {:induction false} EditView(fs: seq<Field>, H: Hasher, lazy: bool, op: Op, v: Tree, f: Tree, depth: nat)
    requires v.Inner? && v.d.known && View(v, f) && DirtyKnown(v) && Knows(v, H(op.key), depth)
    ensures SameEdit(Edit(fs, H, lazy, op, v, depth), Edit(fs, H, lazy, op, f, depth))
    decreases BITS - depth, 1
  {
    var step := H(op.key)[depth];
    EditChildView(fs, H, lazy, op, Child(v, step), Child(f, step), depth + 1);
    var c := EditChild(fs, H, lazy, op, Child(v, step), depth + 1);
    var e := EditChild(fs, H, lazy, op, Child(f, step), depth + 1);
    if c.Ok? {
      RebuildView(fs, lazy, op, depth, WithChild(v, step, c.tree), WithChild(f, step, e.tree));
    }
  }

  lemma RebuildView(fs: seq<Field>, lazy: bool, op: Op, depth: nat, v: Tree, f: Tree)
    requires v.Inner? && f.Inner? && v.d == f.d && v.d.known && v.left.d.known && v.right.d.known
    requires View(v.left, f.left) && View(v.right, f.right) && DirtyKnown(v.left) && DirtyKnown(v.right)
    ensures SameEdit(Ok(Rebuild(fs, lazy, op, depth, v)), Ok(Rebuild(fs, lazy, op, depth, f)))
  {
  }

  lemma {:induction false} EditChildView(fs: seq<Field>, H: Hasher, lazy: bool, op: Op, c: Tree, f: Tree, depth: nat)
    requires c.d.known && View(c, f) && DirtyKnown(c) && Knows(c, H(op.key), depth)
    ensures SameEdit(EditChild(fs, H, lazy, op, c, depth), EditChild(fs, H, lazy, op, f, depth))
    decreases BITS - depth, 2
  {
    if c.Inner? {
      EditView(fs, H, lazy, op, c, f, depth);
    } else if op.Add? && c.d.key != [] && c.d.key != op.key && depth < BITS {
      var s := Split(fs, c.d, H(c.d.key)[depth]);
      SplitKnows(fs, c.d, H(c.d.key)[depth], H(op.key), depth);
      EditView(fs, H, lazy, op, s, s, depth);
    }
  }

  lemma SplitKnows(fs: seq<Field>, d: NodeData, step: bool, q: Digest, depth: nat)
    requires d.known && depth < BITS
    ensures var s := Split(fs, d, step); Knows(s, q, depth) && View(s, s) && DirtyKnown(s)
  {
  }

  /** A call does not lose the knowledge of any path. */
  lemma {:induction false} EditKnows(fs: seq<Field>, H: Hasher, lazy: bool, op: Op, v: Tree, q: Digest, depth: nat)
    requires v.Inner? && Knows(v, q, depth) && depth < BITS
    ensures Edit(fs, H, lazy, op, v, depth).Ok? ==> Knows(Edit(fs, H, lazy, op, v, depth).tree, q, depth)
    decreases BITS - depth, 1
  {
    var step := H(op.key)[depth];
    if q[depth] == step {
      EditChildKnows(fs, H, lazy, op, Child(v, step), q, depth + 1);
    } else {
      EditChildKnown(fs, H, lazy, op, Child(v, step), depth + 1);
    }
  }

  lemma {:induction false} EditChildKnows(fs: seq<Field>, H: Hasher, lazy: bool, op: Op, c: Tree, q: Digest,
      depth: nat)
    requires Knows(c, q, depth) && depth <= BITS
    ensures EditChild(fs, H, lazy, op, c, depth).Ok? ==> Knows(EditChild(fs, H, lazy, op, c, depth).tree, q, depth)
    decreases BITS - depth, 2
  {
    if c.Inner? {
      EditKnows(fs, H, lazy, op, c, q, depth);
    } else if op.Add? && c.d.key != [] && c.d.key != op.key && depth < BITS {
      SplitKnows(fs, c.d, H(c.d.key)[depth], q, depth);
      EditKnows(fs, H, lazy, op, Split(fs, c.d, H(c.d.key)[depth]), q, depth);
    }
  }

  lemma {:induction false} EditChildKnown(fs: seq<Field>, H: Hasher, lazy: bool, op: Op, c: Tree, depth: nat)
    requires c.d.known
    ensures EditChild(fs, H, lazy, op, c, depth).Ok? ==> EditChild(fs, H, lazy, op, c, depth).tree.d.known
    decreases BITS - depth, 2
  {
    if c.Inner? {
      EditKnown(fs, H, lazy, op, c, depth);
    } else if op.Add? && c.d.key != [] && c.d.key != op.key && depth < BITS {
      EditKnown(fs, H, lazy, op, Split(fs, c.d, H(c.d.key)[depth]), depth);
    }
  }

  lemma {:induction false} EditKnown(fs: seq<Field>, H: Hasher, lazy: bool, op: Op, v: Tree, depth: nat)
    requires v.Inner? && v.d.known
    ensures Edit(fs, H, lazy, op, v, depth).Ok? ==> Edit(fs, H, lazy, op, v, depth).tree.d.known
    decreases BITS - depth, 1
  {
  }

  // ---- what is not known ----

  lemma {:induction false} UnknownBelow(fs: seq<Field>, H: Hasher, lazy: bool, op: Op, t: Tree, p: Path)
    requires t.Inner? && Placed(fs, H, t, p) && p <= H(op.key)
    ensures Edit(fs, H, lazy, op, t, |p|) == Err(UnknownSubtree) <==> !Knows(t, H(op.key), |p|)
    decreases BITS - |p|, 1
  {
    var step := H(op.key)[|p|];
    if t.left.d.known && t.right.d.known {
      UnknownChild(fs, H, lazy, op, Child(t, step), p + [step]);
    }
  }

  lemma {:induction false} UnknownChild(fs: seq<Field>, H: Hasher, lazy: bool, op: Op, c: Tree, p: Path)
    requires c.d.known && Placed(fs, H, c, p) && p <= H(op.key)
    ensures EditChild(fs, H, lazy, op, c, |p|) == Err(UnknownSubtree) <==> !Knows(c, H(op.key), |p|)
    decreases BITS - |p|, 2
  {
    if c.Inner? {
      UnknownBelow(fs, H, lazy, op, c, p);
    } else if op.Add? && c.d.key != [] && c.d.key != op.key && |p| < BITS {
      SplitPlaced(fs, H, c.d, p);
      SplitKnows(fs, c.d, H(c.d.key)[|p|], H(op.key), |p|);
      UnknownBelow(fs, H, lazy, op, Split(fs, c.d, H(c.d.key)[|p|]), p);
    }
  }

  /** A call meets an unknown subtree exactly if a node on the path of its key, or beside it, is not
      known; only Add looks at the key first. */
  lemma UnknownIff(fs: seq<Field>, H: Hasher, lazy: bool, op: Op, t: Tree)
    requires Placed(fs, H, t, []) && (t.d.known ==> t.Inner?) && (op.Add? ==> op.key != [])
    ensures Apply(fs, H, lazy, op, t) == Err(UnknownSubtree) <==> !Knows(t, H(op.key), 0)
  {
    if t.Inner? {
      UnknownBelow(fs, H, lazy, op, t, []);
    }
  }

  lemma {:induction false} StepsIff(fs: seq<Field>, H: Hasher, q: Digest, t: Tree, p: Path)
    requires t.Inner? && Placed(fs, H, t, p) && p <= q
    ensures StepsFrom(q, t, |p|) == None <==> !Knows(t, q, |p|)
    decreases t
  {
    var c := Child(t, q[|p|]);
    if c.Inner? {
      StepsIff(fs, H, q, c, p + [q[|p|]]);
    }
  }

  /** A proof is refused exactly then, or if the key is empty. */
  lemma ProofIff(fs: seq<Field>, H: Hasher, t: Tree, key: Bytes)
    requires Placed(fs, H, t, []) && (t.d.known ==> t.Inner?)
    ensures GetProof(H, t, key) == None <==> key == [] || !Knows(t, H(key), 0)
  {
    if t.Inner? {
      StepsIff(fs, H, H(key), t, []);
    }
  }

  /** Relabelling at the end of the transaction keeps the view. */
  lemma {:induction false} FixView(fs: seq<Field>, v: Tree, f: Tree)
    requires View(v, f) && DirtyKnown(v)
    ensures View(Fix(fs, v), Fix(fs, f))
  {
    if v.d.known && v.Inner? && v.d.dirty {
      FixView(fs, v.left, f.left);
      FixView(fs, v.right, f.right);
    }
  }

  /** Garbage collection only forgets. */
  lemma {:induction false} CollectAtView(s: Scope, v: Tree, p: Path)
    requires ScopeOk(s) && View(v, v) && Clean(v)
    ensures View(CollectAt(s, v, p), v)
  {
    if v.d.known && v.Inner? {
      CollectAtView(s, v.left, p + [false]);
      CollectAtView(s, v.right, p + [true]);
    }
  }

  lemma CollectView(s: Scope, v: Tree)
    requires ScopeOk(s) && View(v, v) && Clean(v)
    ensures View(Collect(s, v), v)
  {
    if v.d.known && v.Inner? {
      CollectAtView(s, v.left, [false]);
      CollectAtView(s, v.right, [true]);
    }
  }

  // ---- the part of an update that the user writes ----

  datatype Request = Done | Call(op: Op) | Query(key: Bytes)

  datatype Reply = Returned(error: Option<Error>) | Answer(found: Lookup)

  /** A user update decides what to do next from the replies it has seen. */
  type Program = seq<Reply> -> Request

  ghost predicate ProgramOk(fs: seq<Field>, prog: Program) {
    forall h :: prog(h).Call? ==> OpOk(fs, prog(h).op) && prog(h).op.key != []
  }

  /** A run of a program through the proxy, at most `n` requests long; asking for a key
      that was not declared ends it with a panic. */
  datatype Outcome = Outcome(tree: Tree, replies: seq<Reply>, panicked: bool)

  ghost function Exec(fs: seq<Field>, H: Hasher, declared: set<Digest>, prog: Program, n: nat, t: Tree,
      h: seq<Reply>): Outcome
    decreases n
  {
    if n == 0 then Outcome(t, h, false)
    else match prog(h)
      case Done => Outcome(t, h, false)
      case Call(op) =>
        if H(op.key) !in declared then Outcome(t, h, true)
        else
          var r := Apply(fs, H, true, op, t);
          var e := if r.Ok? then None else Some(r.error);
          Exec(fs, H, declared, prog, n - 1, After(fs, H, true, op, t), h + [Returned(e)])
      case Query(k) =>
        if H(k) !in declared then Outcome(t, h, true)
        else Exec(fs, H, declared, prog, n - 1, t, h + [Answer(Record(H, t, k))])
  }

  lemma {:induction false} RecordView(q: Digest, key: Bytes, v: Tree, f: Tree, depth: nat)
    requires View(v, f) && Knows(v, q, depth)
    ensures RecordAt(q, key, v, depth) == RecordAt(q, key, f, depth)
    decreases v
  {
    if v.Inner? {
      RecordView(q, key, Child(v, q[depth]), Child(f, q[depth]), depth + 1);
    }
  }

  ghost predicate KnowsAll(v: Tree, declared: set<Digest>) {
    v.Inner? && forall q :: q in declared ==> Knows(v, q, 0)
  }

  ghost predicate NeverUnknown(h: seq<Reply>) {
    forall i :: 0 <= i < |h| ==> h[i] != Returned(Some(UnknownSubtree)) && h[i] != Answer(Unknown)
  }

  /** Within a transaction the two trees answer every request alike. */
  lemma {:induction false} ExecView(
      fs: seq<Field>, H: Hasher, declared: set<Digest>, prog: Program, n: nat, v: Tree, f: Tree, h: seq<Reply>)
    requires View(v, f) && v.d.known && DirtyKnown(v) && KnowsAll(v, declared) && ProgramOk(fs, prog)
    requires NeverUnknown(h)
    ensures
      var a := Exec(fs, H, declared, prog, n, v, h);
      var b := Exec(fs, H, declared, prog, n, f, h);
      a.replies == b.replies && a.panicked == b.panicked && View(a.tree, b.tree) && DirtyKnown(a.tree)
    ensures NeverUnknown(Exec(fs, H, declared, prog, n, v, h).replies)
    decreases n
  {
    if n > 0 {
      match prog(h)
      case Done =>
      case Call(op) =>
        if H(op.key) in declared {
          ApplyView(fs, H, declared, op, v, f);
          var r := Apply(fs, H, true, op, v);
          var e := if r.Ok? then None else Some(r.error);
          ExecView(fs, H, declared, prog, n - 1, After(fs, H, true, op, v), After(fs, H, true, op, f),
            h + [Returned(e)]);
        }
      case Query(k) =>
        if H(k) in declared {
          RecordView(H(k), k, v, f, 0);
          RecordKnown(H(k), k, v, 0);
          ExecView(fs, H, declared, prog, n - 1, v, f, h + [Answer(Record(H, v, k))]);
        }
    }
  }

  lemma ApplyView(fs: seq<Field>, H: Hasher, declared: set<Digest>, op: Op, v: Tree, f: Tree)
    requires View(v, f) && v.d.known && DirtyKnown(v) && KnowsAll(v, declared)
    requires H(op.key) in declared && op.key != []
    ensures Apply(fs, H, true, op, v).Err? ==>
      Apply(fs, H, true, op, f) == Apply(fs, H, true, op, v) && Apply(fs, H, true, op, v).error != UnknownSubtree
    ensures Apply(fs, H, true, op, v).Ok? == Apply(fs, H, true, op, f).Ok?
    ensures
      var v' := After(fs, H, true, op, v);
      View(v', After(fs, H, true, op, f)) && v'.d.known && DirtyKnown(v') && KnowsAll(v', declared)
  {
    EditView(fs, H, true, op, v, f, 0);
    forall q | q in declared ensures Knows(After(fs, H, true, op, v), q, 0) {
      EditKnows(fs, H, true, op, v, q, 0);
    }
  }

  lemma {:induction false} RecordKnown(q: Digest, key: Bytes, v: Tree, depth: nat)
    requires Knows(v, q, depth)
    ensures RecordAt(q, key, v, depth) != Unknown
    decreases v
  {
    if v.Inner? {
      RecordKnown(q, key, Child(v, q[depth]), depth + 1);
    }
  }

  // ---- whole updates ----

  /** A user update: the keys it declares, the check it makes (which only reads) and the
      changes it applies; `steps` bounds the number of requests. */
  datatype UserUpdate = UserUpdate(keys: seq<Bytes>, check: Program, accept: seq<Reply> -> bool, change: Program,
    steps: nat)

  datatype Status = Rejected | CheckFailed | Panicked | Applied(replies: seq<Reply>)

  ghost predicate UpdateOk(fs: seq<Field>, u: UserUpdate, keys: set<Bytes>) {
    && ProgramOk(fs, u.change) && (forall h :: u.change(h).Call? ==> u.change(h).op.key in keys)
    && (forall h :: !u.check(h).Call?)
    && forall i :: 0 <= i < |u.keys| ==> u.keys[i] != []
  }

  datatype Preparation = Preparation(accepted: bool, tree: Tree)

  /** Verifying the proofs one after the other; the first failure ends it, and what the proofs
      before it have added stays. */
  ghost function VerifyAll(H: Hasher, t: Tree, pfs: seq<Proof>): Preparation
    decreases |pfs|
  {
    if pfs == [] then Preparation(true, t)
    else if !Accepts(H, t, pfs[0]) then Preparation(false, t)
    else VerifyAll(H, Verify(H, t, pfs[0]), pfs[1..])
  }

  /** The paths of the keys that the proofs declare. */
  function Declared(H: Hasher, pfs: seq<Proof>): set<Digest> {
    set i | 0 <= i < |pfs| :: H(pfs[i].key)
  }

  /** The proofs a collection issues for a list of keys. */
  ghost function Issue(H: Hasher, f: Tree, keys: seq<Bytes>): Option<seq<Proof>> {
    if keys == [] then Some([])
    else match (GetProof(H, f, keys[0]), Issue(H, f, keys[1..]))
      case (Some(p), Some(ps)) => Some([p] + ps)
      case _ => None
  }

  /** Prepare, Begin, Apply and End, with the garbage collection that End triggers. */
  ghost function ApplyUpdate(fs: seq<Field>, H: Hasher, s: Scope, u: UserUpdate, pfs: seq<Proof>, t: Tree):
      (Status, Tree)
    requires ScopeOk(s)
  {
    var w := VerifyAll(H, t, pfs);
    if !w.accepted then (Rejected, w.tree) else Change(fs, H, s, u, Declared(H, pfs), w.tree)
  }

  /** The check and then the changes, on the tree as it is. */
  ghost function Attempt(fs: seq<Field>, H: Hasher, u: UserUpdate, declared: set<Digest>, w: Tree): (Status, Tree) {
    var c := Exec(fs, H, declared, u.check, u.steps, w, []);
    if c.panicked then (Panicked, w)
    else if !u.accept(c.replies) then (CheckFailed, w)
    else
      var a := Exec(fs, H, declared, u.change, u.steps, w, []);
      (if a.panicked then Panicked else Applied(a.replies), a.tree)
  }

  ghost function Change(fs: seq<Field>, H: Hasher, s: Scope, u: UserUpdate, declared: set<Digest>, w: Tree):
      (Status, Tree)
    requires ScopeOk(s)
  {
    var (status, t) := Attempt(fs, H, u, declared, w);
    (status, if status.Applied? then Collect(s, Fix(fs, t)) else t)
  }

  lemma {:induction false} IssueComplete(fs: seq<Field>, H: Hasher, f: Tree, keys: seq<Bytes>)
    requires Full(fs, H, f) && forall i :: 0 <= i < |keys| ==> keys[i] != []
    ensures Issue(H, f, keys).Some?
    ensures
      var pfs := Issue(H, f, keys).value;
      |pfs| == |keys| && forall i :: 0 <= i < |keys| ==>
        pfs[i].key == keys[i] && pfs[i].root.lbl == f.d.lbl && Consistent(H, pfs[i])
  {
    if keys != [] {
      ProofComplete(fs, H, f, keys[0]);
      IssueComplete(fs, H, f, keys[1..]);
    }
  }

  lemma {:induction false} VerifyAllView(fs: seq<Field>, H: Hasher, v: Tree, f: Tree, pfs: seq<Proof>)
    requires View(v, f) && Full(fs, H, f)
    requires forall i :: 0 <= i < |pfs| ==> pfs[i].root.lbl == f.d.lbl && Consistent(H, pfs[i])
    ensures VerifyAll(H, v, pfs).accepted
    ensures View(VerifyAll(H, v, pfs).tree, f) && View(v, VerifyAll(H, v, pfs).tree)
    ensures forall i :: 0 <= i < |pfs| ==> Knows(VerifyAll(H, v, pfs).tree, H(pfs[i].key), 0)
    decreases |pfs|
  {
    ViewReflexive(v, f);
    if pfs != [] {
      var w := Verify(H, v, pfs[0]);
      VerifyView(fs, H, v, f, pfs[0]);
      VerifyAllView(fs, H, w, f, pfs[1..]);
      ViewTransitive(v, w, VerifyAll(H, v, pfs).tree);
      KnowsMore(w, VerifyAll(H, v, pfs).tree, H(pfs[0].key), 0);
    }
  }

  lemma {:induction false} CleanDirtyKnown(v: Tree)
    requires Clean(v)
    ensures DirtyKnown(v)
  {
    if v.Inner? {
      CleanDirtyKnown(v.left);
      CleanDirtyKnown(v.right);
    }
  }

  lemma CallFull(fs: seq<Field>, H: Hasher, op: Op, t: Tree, keys: set<Bytes>)
    requires OpOk(fs, op) && op.key != [] && op.key in keys
    requires Sound(fs, t) && Full(fs, H, Fix(fs, t)) && Stored(t).Keys <= keys && Separates(H, keys)
    ensures
      var t' := After(fs, H, true, op, t);
      Sound(fs, t') && Full(fs, H, Fix(fs, t')) && Stored(t').Keys <= keys
  {
    FixKeeps(fs, H, t, []);
    ApplyLazy(fs, H, op, t);
    ApplyFull(fs, H, op, Fix(fs, t));
    FixKeeps(fs, H, After(fs, H, true, op, t), []);
  }

  /** On a full collection, the tree is full again once the transaction ends. */
  lemma {:induction false} ExecFull(
      fs: seq<Field>, H: Hasher, declared: set<Digest>, prog: Program, n: nat, t: Tree, h: seq<Reply>,
        keys: set<Bytes>)
    requires ProgramOk(fs, prog) && (forall h' :: prog(h').Call? ==> prog(h').op.key in keys)
    requires Sound(fs, t) && Full(fs, H, Fix(fs, t)) && Stored(t).Keys <= keys && Separates(H, keys)
    ensures
      var t' := Exec(fs, H, declared, prog, n, t, h).tree;
      Sound(fs, t') && Full(fs, H, Fix(fs, t')) && Stored(t').Keys <= keys
    decreases n
  {
    hide Sound, Full, Fix, Stored, Apply, Separates, Record;
    if n > 0 {
      match prog(h)
      case Done =>
      case Call(op) =>
        if H(op.key) in declared {
          CallFull(fs, H, op, t, keys);
          var t' := After(fs, H, true, op, t);
          var r := Apply(fs, H, true, op, t);
          var e := if r.Ok? then None else Some(r.error);
          ExecFull(fs, H, declared, prog, n - 1, t', h + [Returned(e)], keys);
        }
      case Query(k) =>
        if H(k) in declared {
          ExecFull(fs, H, declared, prog, n - 1, t, h + [Answer(Record(H, t, k))], keys);
        }
    }
  }

  /** One update with proofs issued by the full collection: the verifier accepts them all,
      never meets a subtree it does not know, gives the same replies, and ends with the same
      root label, whatever its scope makes it forget afterwards. With an empty scope, an update that
      is applied leaves nothing but that label; one whose check fails leaves what the proofs told. */
  lemma UpdateInStep(fs: seq<Field>, H: Hasher, s: Scope, u: UserUpdate, v: Tree, f: Tree, keys: set<Bytes>)
    requires ScopeOk(s) && View(v, f) && Full(fs, H, f) && UpdateOk(fs, u, keys)
    requires Separates(H, keys) && Stored(f).Keys <= keys
    ensures Issue(H, f, u.keys).Some?
    ensures
      var pfs := Issue(H, f, u.keys).value;
      var (a, v') := ApplyUpdate(fs, H, s, u, pfs, v);
      var (b, f') := ApplyUpdate(fs, H, SCOPE_ALL, u, pfs, f);
      && a == b && a != Rejected && (a.Applied? ==> NeverUnknown(a.replies))
      && (a != Panicked ==> v'.d.lbl == f'.d.lbl && View(v', f') && Full(fs, H, f') && Stored(f').Keys <= keys)
      && (a.Applied? && s == SCOPE_NONE ==> Bare(v'))
  {
    var w := PrepareInStep(fs, H, u.keys, v, f);
    ChangeInStep(fs, H, s, u, Declared(H, Issue(H, f, u.keys).value), w, f, keys);
  }

  /** The view can answer for the declared keys, of which there may be none. */
  ghost predicate Ready(v: Tree, declared: set<Digest>) {
    DirtyKnown(v) && (declared != {} ==> v.d.known && KnowsAll(v, declared))
  }

  lemma PrepareInStep(fs: seq<Field>, H: Hasher, ks: seq<Bytes>, v: Tree, f: Tree) returns (w: Tree)
    requires View(v, f) && Full(fs, H, f) && forall i :: 0 <= i < |ks| ==> ks[i] != []
    ensures Issue(H, f, ks).Some?
    ensures VerifyAll(H, v, Issue(H, f, ks).value) == Preparation(true, w)
    ensures VerifyAll(H, f, Issue(H, f, ks).value) == Preparation(true, f)
    ensures View(w, f) && Ready(w, Declared(H, Issue(H, f, ks).value))
  {
    IssueComplete(fs, H, f, ks);
    var pfs := Issue(H, f, ks).value;
    FullView(f);
    VerifyAllView(fs, H, v, f, pfs);
    VerifyAllView(fs, H, f, f, pfs);
    w := VerifyAll(H, v, pfs).tree;
    ViewOfFull(f, VerifyAll(H, f, pfs).tree);
    if pfs != [] {
      assert Knows(w, H(pfs[0].key), 0);
    }
    ViewParts(fs, H, w, f, []);
    CleanDirtyKnown(w);
  }

  /** With no declared keys every request is a panic, and nothing changes. */
  lemma {:induction false} ExecNothing(fs: seq<Field>, H: Hasher, prog: Program, n: nat, v: Tree, f: Tree)
    ensures
      var a, b := Exec(fs, H, {}, prog, n, v, []), Exec(fs, H, {}, prog, n, f, []);
      a.tree == v && b.tree == f && a.replies == b.replies == [] && a.panicked == b.panicked
  {
  }

  lemma ExecInStep(fs: seq<Field>, H: Hasher, declared: set<Digest>, prog: Program, n: nat, v: Tree, f: Tree)
    requires View(v, f) && Ready(v, declared) && ProgramOk(fs, prog)
    ensures
      var a, b := Exec(fs, H, declared, prog, n, v, []), Exec(fs, H, declared, prog, n, f, []);
      && a.replies == b.replies && a.panicked == b.panicked && NeverUnknown(a.replies)
      && View(a.tree, b.tree) && DirtyKnown(a.tree)
  {
    if declared == {} {
      ExecNothing(fs, H, prog, n, v, f);
    } else {
      ExecView(fs, H, declared, prog, n, v, f, []);
    }
  }

  /** Nothing is known but the label. */
  ghost predicate Bare(v: Tree) {
    v.Leaf? && !v.d.known
  }

  lemma AttemptInStep(fs: seq<Field>, H: Hasher, u: UserUpdate, declared: set<Digest>, w: Tree, f: Tree,
      keys: set<Bytes>)
    requires View(w, f) && Full(fs, H, f) && UpdateOk(fs, u, keys)
    requires Separates(H, keys) && Stored(f).Keys <= keys && Ready(w, declared)
    ensures
      var (a, w') := Attempt(fs, H, u, declared, w);
      var (b, f') := Attempt(fs, H, u, declared, f);
      && a == b && a != Rejected && (a.Applied? ==> NeverUnknown(a.replies))
      && (a == CheckFailed ==> w' == w && f' == f)
      && View(w', f') && DirtyKnown(w') && Full(fs, H, Fix(fs, f')) && Stored(f').Keys <= keys
  {
    ExecInStep(fs, H, declared, u.check, u.steps, w, f);
    ExecInStep(fs, H, declared, u.change, u.steps, w, f);
    CleanClosed(f);
    ExecFull(fs, H, declared, u.change, u.steps, f, [], keys);
  }

  /** Relabelling and garbage collection at the end of the transaction. */
  lemma EndInStep(fs: seq<Field>, H: Hasher, s: Scope, w: Tree, f: Tree, keys: set<Bytes>)
    requires ScopeOk(s) && View(w, f) && DirtyKnown(w) && Full(fs, H, Fix(fs, f)) && Stored(f).Keys <= keys
    ensures View(Collect(s, Fix(fs, w)), Fix(fs, f)) && (s == SCOPE_NONE ==> Bare(Collect(s, Fix(fs, w))))
    ensures Collect(SCOPE_ALL, Fix(fs, f)) == Fix(fs, f) && Stored(Fix(fs, f)).Keys <= keys
  {
    FixKeeps(fs, H, f, []);
    FixView(fs, w, f);
    ViewParts(fs, H, Fix(fs, w), Fix(fs, f), []);
    ViewReflexive(Fix(fs, w), Fix(fs, f));
    CollectView(s, Fix(fs, w));
    ViewTransitive(Collect(s, Fix(fs, w)), Fix(fs, w), Fix(fs, f));
    CollectAll(Fix(fs, f));
  }

  lemma ChangeInStep(fs: seq<Field>, H: Hasher, s: Scope, u: UserUpdate, declared: set<Digest>, w: Tree, f: Tree,
      keys: set<Bytes>)
    requires ScopeOk(s) && View(w, f) && Full(fs, H, f) && UpdateOk(fs, u, keys)
    requires Separates(H, keys) && Stored(f).Keys <= keys && Ready(w, declared)
    ensures
      var (a, v') := Change(fs, H, s, u, declared, w);
      var (b, f') := Change(fs, H, SCOPE_ALL, u, declared, f);
      && a == b && a != Rejected && (a.Applied? ==> NeverUnknown(a.replies))
      && (a != Panicked ==> View(v', f') && Full(fs, H, f') && Stored(f').Keys <= keys)
      && (a.Applied? && s == SCOPE_NONE ==> Bare(v'))
  {
    hide View, Full, UpdateOk, Ready, Attempt, DirtyKnown, Fix, Collect, Bare, Stored, NeverUnknown, Separates;
    AttemptInStep(fs, H, u, declared, w, f, keys);
    EndInStep(fs, H, s, Attempt(fs, H, u, declared, w).1, Attempt(fs, H, u, declared, f).1, keys);
  }

  lemma {:induction false} FullView(f: Tree)
    requires FullyKnown(f)
    ensures View(f, f)
  {
    if f.Inner? {
      FullView(f.left);
      FullView(f.right);
    }
  }

  lemma {:induction false} ViewOfFull(f: Tree, g: Tree)
    requires FullyKnown(f) && View(f, g)
    ensures f == g
  {
    if f.Inner? {
      ViewOfFull(f.left, g.left);
      ViewOfFull(f.right, g.right);
    }
  }

  // ---- any number of updates ----

  datatype Journal = Journal(statuses: seq<Status>, tree: Tree)

  /** The full collection applies the updates and issues the proofs for each of them. */
  ghost function Lead(fs: seq<Field>, H: Hasher, us: seq<UserUpdate>, f: Tree): Journal {
    if us == [] then Journal([], f)
    else match Issue(H, f, us[0].keys)
      case None => Journal([Rejected], f)
      case Some(pfs) =>
        var (b, f') := ApplyUpdate(fs, H, SCOPE_ALL, us[0], pfs, f);
        if b == Panicked then Journal([b], f')
        else
          var rest := Lead(fs, H, us[1..], f');
          Journal([b] + rest.statuses, rest.tree)
  }

  /** A verifier follows with the proofs it is sent. */
  ghost function Follow(fs: seq<Field>, H: Hasher, s: Scope, us: seq<UserUpdate>, v: Tree, f: Tree): Journal
    requires ScopeOk(s)
  {
    if us == [] then Journal([], v)
    else match Issue(H, f, us[0].keys)
      case None => Journal([Rejected], v)
      case Some(pfs) =>
        var (a, v') := ApplyUpdate(fs, H, s, us[0], pfs, v);
        var (b, f') := ApplyUpdate(fs, H, SCOPE_ALL, us[0], pfs, f);
        if a == Panicked then Journal([a], v')
        else
          var rest := Follow(fs, H, s, us[1..], v', f');
          Journal([a] + rest.statuses, rest.tree)
  }

  ghost predicate EndsApplied(statuses: seq<Status>) {
    statuses != [] && statuses[|statuses| - 1].Applied?
  }

  /** Over any number of updates the verifier reports what the full collection reports, and
      ends with its root label; a verifier of empty scope knows nothing else whenever the last update
      has been applied. */
  lemma {:induction false} InStep(fs: seq<Field>, H: Hasher, s: Scope, us: seq<UserUpdate>, v: Tree, f: Tree,
      keys: set<Bytes>)
    requires ScopeOk(s) && View(v, f) && Full(fs, H, f) && Separates(H, keys) && Stored(f).Keys <= keys
    requires forall i :: 0 <= i < |us| ==> UpdateOk(fs, us[i], keys)
    ensures Follow(fs, H, s, us, v, f).statuses == Lead(fs, H, us, f).statuses
    ensures Rejected !in Lead(fs, H, us, f).statuses
    ensures Panicked !in Lead(fs, H, us, f).statuses ==>
      Follow(fs, H, s, us, v, f).tree.d.lbl == Lead(fs, H, us, f).tree.d.lbl
    ensures s == SCOPE_NONE && EndsApplied(Lead(fs, H, us, f).statuses) ==> Bare(Follow(fs, H, s, us, v, f).tree)
  {
    hide Full, ApplyUpdate, UpdateOk, Issue, Stored, Bare;
    if us != [] {
      UpdateInStep(fs, H, s, us[0], v, f, keys);
      var pfs := Issue(H, f, us[0].keys).value;
      var (a, v') := ApplyUpdate(fs, H, s, us[0], pfs, v);
      var (b, f') := ApplyUpdate(fs, H, SCOPE_ALL, us[0], pfs, f);
      if a != Panicked {
        InStep(fs, H, s, us[1..], v', f', keys);
      }
    }
  }

  /** A new verifier is a view of a new collection, and so of everything it becomes. */
  lemma NewVerifierInStep(fs: seq<Field>, H: Hasher, us: seq<UserUpdate>, keys: set<Bytes>)
    requires Separates(H, keys)
    requires forall i :: 0 <= i < |us| ==> UpdateOk(fs, us[i], keys)
    ensures
      var v := Stub(Empty(fs).d.lbl);
      var f := Lead(fs, H, us, Empty(fs));
      var w := Follow(fs, H, SCOPE_NONE, us, v, Empty(fs));
      w.statuses == f.statuses && Rejected !in f.statuses
      && (Panicked !in f.statuses ==> w.tree.d.lbl == f.tree.d.lbl)
      && (EndsApplied(f.statuses) ==> Bare(w.tree))
  {
    EmptyFull(fs, H);
    InStep(fs, H, SCOPE_NONE, us, Stub(Empty(fs).d.lbl), Empty(fs), keys);
  }
}
