/** What an update means: its check and its changes, run on a finite map. Collections that know
    everything, and views of them, come to the same. */
module Meaning {
  import opened Fields
  import opened Trie
  import opened Mapping
  import opened Canonical
  import opened Lazy
  import opened Proofs
  import opened Scopes
  import opened Verifiers
  import opened Lockstep
  import opened Sessions

  // ---- programs on maps ----

  datatype Course = Course(contents: Contents, replies: seq<Reply>, panicked: bool)

  /** A request is answered from the map; one for a key that was not declared is a panic. */
  ghost function Interpret(H: Hasher, declared: set<Digest>, prog: Program, n: nat, m: Contents, h: seq<Reply>): Course
    decreases n
  {
    if n == 0 || prog(h).Done? then Course(m, h, false)
    else if prog(h).Query? then
      var k := prog(h).key;
      if H(k) !in declared then Course(m, h, true)
      else
        var found := if k == [] then NoKey else if k in m then Found(m[k]) else Absent;
        Interpret(H, declared, prog, n - 1, m, h + [Answer(found)])
    else
      var op := prog(h).op;
      if H(op.key) !in declared then Course(m, h, true)
      else if MapOp(op, m) == None then
        Interpret(H, declared, prog, n - 1, m,
          h + [Returned(Some(if op.Add? then KeyCollision else KeyNotFound))])
      else Interpret(H, declared, prog, n - 1, MapOp(op, m).value, h + [Returned(None)])
  }

  /** In a transaction: the stale nodes are flagged, and relabelling them gives a full collection. */
  ghost predicate Healthy(fs: seq<Field>, H: Hasher, t: Tree, keys: set<Bytes>) {
    Sound(fs, t) && Full(fs, H, Fix(fs, t)) && Stored(t).Keys <= keys && Separates(H, keys)
  }

  lemma HealthyParts(fs: seq<Field>, H: Hasher, t: Tree, keys: set<Bytes>)
    requires Healthy(fs, H, t, keys)
    ensures t.Inner? && FullyKnown(t) && Placed(fs, H, t, [])
    ensures forall k :: k in keys ==> Apart(H, Stored(t), k)
  {
    FixKeeps(fs, H, t, []);
  }

  lemma FullHealthy(fs: seq<Field>, H: Hasher, f: Tree, keys: set<Bytes>)
    requires Full(fs, H, f) && Stored(f).Keys <= keys && Separates(H, keys)
    ensures Healthy(fs, H, f, keys)
  {
    CleanClosed(f);
  }

  ghost predicate CallsWithin(prog: Program, keys: set<Bytes>) {
    forall h :: prog(h).Call? ==> prog(h).op.key in keys
  }

  lemma CallMeaning(fs: seq<Field>, H: Hasher, op: Op, t: Tree, keys: set<Bytes>)
    requires Healthy(fs, H, t, keys) && OpOk(fs, op) && op.key != [] && op.key in keys
    ensures Healthy(fs, H, After(fs, H, true, op, t), keys)
    ensures Agrees(op, Stored(t), Apply(fs, H, true, op, t))
    ensures Stored(After(fs, H, true, op, t)) ==
      if MapOp(op, Stored(t)).Some? then MapOp(op, Stored(t)).value else Stored(t)
  {
    HealthyParts(fs, H, t, keys);
    CallFull(fs, H, op, t, keys);
    EditMap(fs, H, true, op, t, []);
  }

  /** A program run through the proxy is run on the map: the same replies, the same end. */
  lemma {:induction false} ExecMeaning(fs: seq<Field>, H: Hasher, declared: set<Digest>, prog: Program, n: nat, t: Tree,
      h: seq<Reply>, keys: set<Bytes>)
    requires Healthy(fs, H, t, keys) && ProgramOk(fs, prog) && CallsWithin(prog, keys)
    ensures
      var e, c := Exec(fs, H, declared, prog, n, t, h), Interpret(H, declared, prog, n, Stored(t), h);
      && e.replies == c.replies && e.panicked == c.panicked && Stored(e.tree) == c.contents
      && Healthy(fs, H, e.tree, keys)
    decreases n
  {
    hide Healthy, Apply, Stored, MapOp, Proofs.Record;
    if n > 0 {
      match prog(h)
      case Done =>
      case Query(k) =>
        if H(k) in declared {
          HealthyParts(fs, H, t, keys);
          Looked(fs, H, t, k);
          ExecMeaning(fs, H, declared, prog, n - 1, t, h + [Answer(Record(H, t, k))], keys);
        }
      case Call(op) =>
        if H(op.key) in declared {
          CallMeaning(fs, H, op, t, keys);
          var r := Apply(fs, H, true, op, t);
          var e := if r.Ok? then None else Some(r.error);
          ExecMeaning(fs, H, declared, prog, n - 1, After(fs, H, true, op, t), h + [Returned(e)], keys);
        }
    }
  }

  lemma Looked(fs: seq<Field>, H: Hasher, t: Tree, k: Bytes)
    requires FullyKnown(t) && Placed(fs, H, t, [])
    ensures Record(H, t, k) == if k == [] then NoKey else if k in Stored(t) then Found(Stored(t)[k]) else Absent
  {
    if k != [] {
      RecordIsStored(fs, H, t, k);
    }
  }

  // ---- whole updates ----

  /** The status that the check and the changes come to on a map. */
  ghost predicate Meant(H: Hasher, u: UserUpdate, declared: set<Digest>, m: Contents, status: Status) {
    var check := Interpret(H, declared, u.check, u.steps, m, []);
    var change := Interpret(H, declared, u.change, u.steps, m, []);
    && status != Rejected
    && (status == CheckFailed <==> !check.panicked && !u.accept(check.replies))
    && (status.Applied? <==> !check.panicked && u.accept(check.replies) && !change.panicked)
    && (status.Applied? ==> status.replies == change.replies)
  }

  /** The map that the changes lead to. */
  ghost function Changed(H: Hasher, u: UserUpdate, declared: set<Digest>, m: Contents): Contents {
    Interpret(H, declared, u.change, u.steps, m, []).contents
  }

  ghost predicate CheckPanics(H: Hasher, u: UserUpdate, declared: set<Digest>, m: Contents) {
    Interpret(H, declared, u.check, u.steps, m, []).panicked
  }

  /** The tree is a view of the collection that stores this map, which is the only one with its label. */
  ghost predicate Represents(fs: seq<Field>, H: Hasher, t: Tree, m: Contents) {
    exists f :: View(t, f) && Full(fs, H, f) && Stored(f) == m
  }

  lemma RepresentsOne(fs: seq<Field>, H: Hasher, t: Tree, m: Contents, m': Contents)
    requires Represents(fs, H, t, m) && Represents(fs, H, t, m')
    ensures m == m' && (FullyKnown(t) ==> Full(fs, H, t) && Stored(t) == m)
  {
    var f :| View(t, f) && Full(fs, H, f) && Stored(f) == m;
    var g :| View(t, g) && Full(fs, H, g) && Stored(g) == m';
    LabelDetermines(fs, H, f, g, []);
    if FullyKnown(t) {
      ViewOfFull(t, f);
    }
  }

  lemma AttemptMeaning(fs: seq<Field>, H: Hasher, u: UserUpdate, declared: set<Digest>, t: Tree, keys: set<Bytes>)
    requires Healthy(fs, H, t, keys) && UpdateOk(fs, u, keys)
    ensures
      var (status, t') := Attempt(fs, H, u, declared, t);
      && Meant(H, u, declared, Stored(t), status) && Healthy(fs, H, t', keys)
      && (status == CheckFailed ==> t' == t)
      && (status.Applied? ==> Stored(t') == Changed(H, u, declared, Stored(t)))
      && (status == Panicked && CheckPanics(H, u, declared, Stored(t)) ==> Stored(t') == Stored(t))
      && (status == Panicked && !CheckPanics(H, u, declared, Stored(t)) ==>
            Stored(t') == Changed(H, u, declared, Stored(t)))
  {
    CheckOk(fs, u, keys);
    hide Healthy, Exec, Interpret, Stored, ProgramOk, UpdateOk;
    ExecMeaning(fs, H, declared, u.check, u.steps, t, [], keys);
    ExecMeaning(fs, H, declared, u.change, u.steps, t, [], keys);
    var c := Exec(fs, H, declared, u.check, u.steps, t, []);
    var check := Interpret(H, declared, u.check, u.steps, Stored(t), []);
    assert c.replies == check.replies && u.accept(c.replies) == u.accept(check.replies);
  }

  lemma EndMeaning(fs: seq<Field>, H: Hasher, s: Scope, t: Tree, keys: set<Bytes>)
    requires ScopeOk(s) && Healthy(fs, H, t, keys)
    ensures Represents(fs, H, Collect(s, Fix(fs, t)), Stored(t))
  {
    var f := Fix(fs, t);
    FixKeeps(fs, H, t, []);
    FullView(f);
    CollectView(s, f);
    assert View(Collect(s, f), f) && Full(fs, H, f) && Stored(f) == Stored(t);
  }

  lemma CheckMeaning(fs: seq<Field>, H: Hasher, u: UserUpdate, declared: set<Digest>, t: Tree, keys: set<Bytes>)
    requires Healthy(fs, H, t, keys) && UpdateOk(fs, u, keys)
    ensures Exec(fs, H, declared, u.check, u.steps, t, []).panicked == CheckPanics(H, u, declared, Stored(t))
  {
    CheckOk(fs, u, keys);
    ExecMeaning(fs, H, declared, u.check, u.steps, t, [], keys);
  }

  /** A prepared update, in an open transaction or in one of its own. */
  lemma PreparedMeaning(fs: seq<Field>, H: Hasher, s: Scope, p: Prepared, c: Session, keys: set<Bytes>)
    requires ScopeOk(s) && Healthy(fs, H, c.tree, keys) && UpdateOk(fs, p.update, keys)
    ensures
      var (status, d) := ApplyPrepared(fs, H, s, p, c);
      var m := Changed(H, p.update, p.declared, Stored(c.tree));
      if p.id != c.id then status == Panicked && d == c
      else
        && Meant(H, p.update, p.declared, Stored(c.tree), status)
        && (status == CheckFailed ==> d == c)
        && (status == Panicked ==>
              var early := CheckPanics(H, p.update, p.declared, Stored(c.tree));
              d.id == c.id && d.ongoing == (c.ongoing || !early)
              && Stored(d.tree) == if early then Stored(c.tree) else m)
        && (status.Applied? && c.ongoing ==>
              d.ongoing && d.id == c.id && Stored(d.tree) == m && Healthy(fs, H, d.tree, keys))
        && (status.Applied? && !c.ongoing ==> !d.ongoing && d.id == c.id + 1 && Represents(fs, H, d.tree, m))
  {
    hide Healthy, Attempt, Meant, Represents, Changed, Stored, Fix, Collect, UpdateOk, CheckPanics;
    CheckMeaning(fs, H, p.update, p.declared, c.tree, keys);
    AttemptMeaning(fs, H, p.update, p.declared, c.tree, keys);
    EndMeaning(fs, H, s, Attempt(fs, H, p.update, p.declared, c.tree).1, keys);
  }

  // ---- updates that come with proofs ----

  ghost predicate Good(H: Hasher, f: Tree, pf: Proof) {
    pf.root.lbl == f.d.lbl && Consistent(H, pf)
  }

  ghost predicate AllGood(H: Hasher, f: Tree, pfs: seq<Proof>) {
    forall i :: 0 <= i < |pfs| ==> Good(H, f, pfs[i])
  }

  /** The proofs are accepted exactly if all of them are consistent and carry the root label. */
  lemma {:induction false} VerifiedAll(fs: seq<Field>, H: Hasher, v: Tree, f: Tree, pfs: seq<Proof>)
    requires View(v, f) && Full(fs, H, f)
    ensures VerifyAll(H, v, pfs).accepted <==> AllGood(H, f, pfs)
    ensures View(VerifyAll(H, v, pfs).tree, f)
    decreases |pfs|
  {
    if pfs != [] && Good(H, f, pfs[0]) {
      VerifyView(fs, H, v, f, pfs[0]);
      VerifiedAll(fs, H, Verify(H, v, pfs[0]), f, pfs[1..]);
      assert AllGood(H, f, pfs[1..]) ==> forall i :: 1 <= i < |pfs| ==> Good(H, f, pfs[i]) by {
        assert forall i :: 1 <= i < |pfs| ==> pfs[i] == pfs[1..][i - 1];
      }
    }
  }

  /** The keys that the proofs are about are declared, and no others. */
  lemma DeclaredKeys(H: Hasher, pfs: seq<Proof>, k: Bytes)
    ensures H(k) in Declared(H, pfs) <==> exists i :: 0 <= i < |pfs| && H(pfs[i].key) == H(k)
  {
  }

  lemma ReadyAfter(fs: seq<Field>, H: Hasher, v: Tree, f: Tree, pfs: seq<Proof>)
    requires View(v, f) && Full(fs, H, f) && AllGood(H, f, pfs)
    ensures Ready(VerifyAll(H, v, pfs).tree, Declared(H, pfs))
  {
    var w := VerifyAll(H, v, pfs).tree;
    VerifyAllView(fs, H, v, f, pfs);
    if pfs != [] {
      assert Knows(w, H(pfs[0].key), 0);
    }
    ViewParts(fs, H, w, f, []);
    CleanDirtyKnown(w);
  }

  /** An update on a view of a whole collection, with proofs from anywhere: it is rejected exactly if
      one of them is not consistent or carries another label; otherwise its status is what its
      check and its changes come to on the map, and if it is applied the view is then one of the
      collection of the changed map. */
  lemma UpdateMeaning(fs: seq<Field>, H: Hasher, s: Scope, u: UserUpdate, pfs: seq<Proof>, v: Tree, f: Tree,
      keys: set<Bytes>)
    requires ScopeOk(s) && View(v, f) && Full(fs, H, f) && UpdateOk(fs, u, keys)
    requires Separates(H, keys) && Stored(f).Keys <= keys
    ensures
      var (status, v') := ApplyUpdate(fs, H, s, u, pfs, v);
      && (status == Rejected <==> !AllGood(H, f, pfs))
      && (status != Rejected ==> Meant(H, u, Declared(H, pfs), Stored(f), status))
      && (status == Rejected || status == CheckFailed ==> Represents(fs, H, v', Stored(f)))
      && (status.Applied? ==> Represents(fs, H, v', Changed(H, u, Declared(H, pfs), Stored(f))))
  {
    VerifiedAll(fs, H, v, f, pfs);
    var w := VerifyAll(H, v, pfs).tree;
    if AllGood(H, f, pfs) {
      ReadyAfter(fs, H, v, f, pfs);
      WholeMeaning(fs, H, s, u, Declared(H, pfs), w, f, keys);
    }
  }

  lemma WholeMeaning(fs: seq<Field>, H: Hasher, s: Scope, u: UserUpdate, declared: set<Digest>, w: Tree, f: Tree,
      keys: set<Bytes>)
    requires ScopeOk(s) && View(w, f) && Full(fs, H, f) && UpdateOk(fs, u, keys) && Ready(w, declared)
    requires Separates(H, keys) && Stored(f).Keys <= keys
    ensures
      var (status, v') := Change(fs, H, s, u, declared, w);
      && Meant(H, u, declared, Stored(f), status)
      && (status == CheckFailed ==> v' == w)
      && (status.Applied? ==> Represents(fs, H, v', Changed(H, u, declared, Stored(f))))
  {
    hide View, Healthy, Meant, Changed, Stored, Fix, Collect, UpdateOk, Ready, Full, Exec;
    FullHealthy(fs, H, f, keys);
    AttemptMeaning(fs, H, u, declared, f, keys);
    ChangeInStep(fs, H, s, u, declared, w, f, keys);
    var (status, v') := Change(fs, H, s, u, declared, w);
    var (b, f') := Change(fs, H, SCOPE_ALL, u, declared, f);
    if status.Applied? {
      EndStored(fs, H, Attempt(fs, H, u, declared, f).1);
      assert View(v', f') && Full(fs, H, f') && Stored(f') == Changed(H, u, declared, Stored(f));
    }
  }

  lemma EndStored(fs: seq<Field>, H: Hasher, t: Tree)
    ensures Collect(SCOPE_ALL, Fix(fs, t)) == Fix(fs, t) && Stored(Fix(fs, t)) == Stored(t)
  {
    CollectAll(Fix(fs, t));
    FixKeeps(fs, H, t, []);
  }
}
