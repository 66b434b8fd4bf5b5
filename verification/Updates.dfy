/** Applying a user update to a collection: its proofs are verified, its check is run, and its
    changes are made in one transaction, all through a proxy that knows the declared keys. */
module Updates {
  import opened Fields
  import opened Trie
  import opened Mapping
  import opened Canonical
  import opened Lazy
  import opened Scopes
  import opened Store
  import opened StoreWalk
  import opened StoreSweep
  import opened StoreEnd
  import opened StoreTies
  import opened Upkeep
  import opened Collections
  import Getters
  import opened Grafting
  import opened Proofs
  import opened Verifiers
  import opened Lockstep
  import Undo
  import opened Sessions
  import opened Meaning

  // ---- keys in play ----

  /** A call adds no key other than its own. */
  lemma {:induction false} EditKeys(fs: seq<Field>, H: Hasher, lazy: bool, op: Op, t: Tree, depth: nat)
    requires t.Inner? && t.d.known
    ensures Edit(fs, H, lazy, op, t, depth).Ok? ==>
      Stored(Edit(fs, H, lazy, op, t, depth).tree).Keys <= Stored(t).Keys + {op.key}
    decreases BITS - depth, 1
  {
    if depth < BITS && t.left.d.known && t.right.d.known {
      var step := H(op.key)[depth];
      EditChildKeys(fs, H, lazy, op, Child(t, step), depth + 1);
      EditChildKnown(fs, H, lazy, op, Child(t, step), depth + 1);
      var e := EditChild(fs, H, lazy, op, Child(t, step), depth + 1);
      if e.Ok? {
        RebuildKeys(fs, lazy, op, depth, WithChild(t, step, e.tree));
      }
    }
  }

  lemma RebuildKeys(fs: seq<Field>, lazy: bool, op: Op, depth: nat, t: Tree)
    requires t.Inner? && t.d.known && t.left.d.known && t.right.d.known
    ensures Stored(Rebuild(fs, lazy, op, depth, t)).Keys <= Stored(t).Keys
  {
  }

  lemma {:induction false} EditChildKeys(fs: seq<Field>, H: Hasher, lazy: bool, op: Op, c: Tree, depth: nat)
    requires c.d.known
    ensures EditChild(fs, H, lazy, op, c, depth).Ok? ==>
      Stored(EditChild(fs, H, lazy, op, c, depth).tree).Keys <= Stored(c).Keys + {op.key}
    decreases BITS - depth, 2
  {
    if c.Inner? {
      EditKeys(fs, H, lazy, op, c, depth);
    } else if op.Add? && c.d.key != [] && c.d.key != op.key && depth < BITS {
      EditKeys(fs, H, lazy, op, Split(fs, c.d, H(c.d.key)[depth]), depth);
    }
  }

  ghost predicate KeysWithin(H: Hasher, t: Tree, keys: set<Bytes>) {
    Stored(t).Keys <= keys && Separates(H, keys)
  }

  lemma CallKeys(fs: seq<Field>, H: Hasher, op: Op, t: Tree, keys: set<Bytes>)
    requires KeysWithin(H, t, keys) && op.key in keys
    ensures Apart(H, Stored(t), op.key) && KeysWithin(H, After(fs, H, true, op, t), keys)
  {
    if t.Inner? && t.d.known {
      EditKeys(fs, H, true, op, t, 0);
    }
  }

  // ---- the proxy ----

  /** A call that the proxy lets through, in a transaction. */
  method Perform(c: Collection, op: Op) returns (err: Option<Error>)
    requires c.Valid() && c.ongoing && OpOk(c.fields, op) && op.key != [] && Apart(c.H, Stored(c.T()), op.key)
    modifies c`nodes, c`world, c`arrays, c.world, c.arrays
    ensures c.Valid() && c.T() == After(c.fields, c.H, true, op, old(c.T()))
    ensures err == Failure(Apply(c.fields, c.H, true, op, old(c.T())))
    ensures Accounts(c.fields, c.H, op, old(c.S()), c.S())
    ensures old(c.arrays) <= c.arrays && fresh(c.arrays - old(c.arrays)) && old(c.world) <= c.world
      && fresh(c.world - old(c.world))
  {
    hide c.S, Proper, TreeNow, Apply, Accounts;
    match op
    case Add(k, raw) => err := c.Insert(k, raw);
    case Set(k, change) =>
      ghost var x;
      err, x := c.Change(k, change);
    case Remove(k) => err := c.Delete(k);
  }

  /** The changes of an update, request by request; a key that was not declared is a panic. */
  method RunProgram(c: Collection, declared: set<Digest>, prog: Program, steps: nat, ghost keys: set<Bytes>)
      returns (replies: seq<Reply>, panicked: bool)
    requires c.Valid() && c.ongoing && ProgramOk(c.fields, prog) && KeysWithin(c.H, c.T(), keys)
    requires forall h :: prog(h).Call? ==> prog(h).op.key in keys
    modifies c`nodes, c`world, c`arrays, c.world, c.arrays
    ensures c.Valid()
    ensures Exec(c.fields, c.H, declared, prog, steps, old(c.T()), []) ==
      Lockstep.Outcome(c.T(), replies, panicked)
    ensures old(c.arrays) <= c.arrays && fresh(c.arrays - old(c.arrays)) && old(c.world) <= c.world
      && fresh(c.world - old(c.world))
  {
    hide c.S, Proper, TreeNow, Apply, KeysWithin, Proofs.Record, Apart, Stored;
    var n: nat := steps;
    replies := [];
    while n > 0
      invariant c.Valid() && KeysWithin(c.H, c.T(), keys) && n <= steps
      invariant Exec(c.fields, c.H, declared, prog, steps, old(c.T()), []) ==
        Exec(c.fields, c.H, declared, prog, n, c.T(), replies)
      invariant old(c.arrays) <= c.arrays && fresh(c.arrays - old(c.arrays)) && old(c.world) <= c.world
        && fresh(c.world - old(c.world))
    {
      match prog(replies) {
      case Done => return replies, false;
      case Call(op) =>
        if c.H(op.key) !in declared {
          return replies, true;
        }
        CallKeys(c.fields, c.H, op, c.T(), keys);
        var err := Perform(c, op);
        replies := replies + [Returned(err)];
      case Query(k) =>
        if c.H(k) !in declared {
          return replies, true;
        }
        var found := Getters.Record(c, k);
        replies := replies + [Answer(found)];
      }
      n := n - 1;
    }
    panicked := false;
  }

  /** The check of an update only reads. */
  method RunCheck(c: Collection, declared: set<Digest>, prog: Program, steps: nat)
      returns (replies: seq<Reply>, panicked: bool)
    requires c.Valid() && forall h :: !prog(h).Call?
    ensures Exec(c.fields, c.H, declared, prog, steps, c.T(), []) == Lockstep.Outcome(c.T(), replies, panicked)
  {
    hide c.S, Proper, TreeNow, Proofs.Record;
    var n: nat := steps;
    replies := [];
    while n > 0
      invariant n <= steps
      invariant Exec(c.fields, c.H, declared, prog, steps, c.T(), []) ==
        Exec(c.fields, c.H, declared, prog, n, c.T(), replies)
    {
      match prog(replies) {
      case Done => return replies, false;
      case Query(k) =>
        if c.H(k) !in declared {
          return replies, true;
        }
        var found := Getters.Record(c, k);
        replies := replies + [Answer(found)];
      }
      n := n - 1;
    }
    panicked := false;
  }

  // ---- whole updates ----

  lemma RootUnflagged(c: Collection, f: Tree)
    requires c.Valid() && !c.ongoing && View(c.T(), f) && Clean(f)
    ensures !c.root.inconsistent
  {
    Getters.RootLooked(c);
    Getters.LookedStill(c, c.root, []);
  }

  /** Prepare: all the proofs have to be accepted; it panics if the root is flagged. */
  method Prepare(c: Collection, u: UserUpdate, pfs: seq<Proof>, ghost f: Tree) returns (p: Option<Prepared>)
    requires c.Valid() && !c.ongoing && !c.root.inconsistent && View(c.T(), f) && Full(c.fields, c.H, f)
    modifies c`arrays, c`world, c`nodes, c.world
    ensures Preparation(p.Some?, c.T()) == VerifyAll(c.H, old(c.T()), pfs)
    ensures p.Some? ==> p.value == Prepared(c.id, u, Declared(c.H, pfs))
    ensures c.Valid() && View(c.T(), f)
    ensures old(c.arrays) <= c.arrays && fresh(c.arrays - old(c.arrays)) && old(c.world) <= c.world
      && fresh(c.world - old(c.world))
  {
    hide c.S, Proper, TreeNow, View, Full, Accepts, Graft, To, Knows;
    var i := 0;
    while i < |pfs|
      invariant i <= |pfs| && c.Valid() && View(c.T(), f)
      invariant VerifyAll(c.H, c.T(), pfs[i..]) == VerifyAll(c.H, old(c.T()), pfs)
      invariant old(c.arrays) <= c.arrays && fresh(c.arrays - old(c.arrays)) && old(c.world) <= c.world
        && fresh(c.world - old(c.world))
    {
      assert pfs[i..][1..] == pfs[i + 1..];
      FullClean(c.fields, c.H, f);
      RootUnflagged(c, f);
      var ok := VerifyProof(c, pfs[i], f);
      if !ok {
        return None;
      }
      i := i + 1;
    }
    return Some(Prepared(c.id, u, Declared(c.H, pfs)));
  }

  lemma FullClean(fs: seq<Field>, H: Hasher, f: Tree)
    requires Full(fs, H, f)
    ensures Clean(f)
  {
  }

  /** What End may forget: nothing if it does not collect. */
  function EffectiveScope(c: Collection): Scope
    reads c
  {
    if c.autoCollect then c.scope else SCOPE_ALL
  }

  lemma {:induction false} ViewKeys(v: Tree, f: Tree)
    requires View(v, f)
    ensures Stored(v).Keys <= Stored(f).Keys
  {
    if v.Inner? {
      ViewKeys(v.left, f.left);
      ViewKeys(v.right, f.right);
    }
  }

  lemma ValidScope(c: Collection)
    requires c.Valid()
    ensures ScopeOk(c.scope) && ScopeOk(EffectiveScope(c))
  {
  }

  lemma CollectEffective(scope: Scope, auto: bool, t: Tree)
    requires ScopeOk(scope)
    ensures Scopes.Collect(if auto then scope else SCOPE_ALL, t) == if auto then Scopes.Collect(scope, t) else t
  {
    CollectAll(t);
  }

  ghost function SessionOf(c: Collection): Session
    reads c, c.world, c.arrays
  {
    Session(c.T(), c.id, c.ongoing)
  }

  /** The changes of an update, in a transaction of their own; a panic leaves it open. */
  method Transact(c: Collection, declared: set<Digest>, prog: Program, steps: nat, ghost keys: set<Bytes>)
      returns (replies: seq<Reply>, panicked: bool)
    requires c.Valid() && !c.ongoing && ProgramOk(c.fields, prog) && KeysWithin(c.H, c.T(), keys)
    requires forall h :: prog(h).Call? ==> prog(h).op.key in keys
    modifies c, c.world, c.arrays
    ensures ScopeOk(EffectiveScope(c)) && EffectiveScope(c) == old(EffectiveScope(c))
    ensures
      var e := Exec(c.fields, c.H, declared, prog, steps, old(c.T()), []);
      && e.replies == replies && e.panicked == panicked
      && c.T() == if panicked then e.tree else Scopes.Collect(EffectiveScope(c), Fix(c.fields, e.tree))
    ensures c.Valid() && c.ongoing == panicked && c.id == old(c.id) + (if panicked then 0 else 1)
    ensures old(c.arrays) <= c.arrays && fresh(c.arrays - old(c.arrays))
    ensures old(c.world) <= c.world && fresh(c.world - old(c.world))
  {
    hide c.S, Proper, TreeNow, Exec, KeysWithin, Fix, Scopes.Collect, Stored, ProgramOk, Tied, Undo.Plain, SavedTree,
      ScopeOk, Clean;
    ValidScope(c);
    c.Begin();
    replies, panicked := RunProgram(c, declared, prog, steps, keys);
    if !panicked {
      CollectEffective(c.scope, c.autoCollect, Fix(c.fields, c.T()));
      c.End();
    }
  }

  /** The check and the changes of an update whose proofs have been verified: in the open
      transaction, if there is one, and in one of their own otherwise. */
  method MakeChange(c: Collection, u: UserUpdate, declared: set<Digest>, ghost keys: set<Bytes>)
      returns (status: Status)
    requires c.Valid() && UpdateOk(c.fields, u, keys) && KeysWithin(c.H, c.T(), keys)
    modifies c, c.world, c.arrays
    ensures ScopeOk(EffectiveScope(c)) && EffectiveScope(c) == old(EffectiveScope(c))
    ensures (status, SessionOf(c)) == Enact(c.fields, c.H, EffectiveScope(c), u, declared, old(SessionOf(c)))
    ensures old(Healthy(c.fields, c.H, c.T(), keys)) ==>
      Meant(c.H, u, declared, old(Stored(c.T())), status)
    ensures c.Valid()
    ensures old(c.arrays) <= c.arrays && fresh(c.arrays - old(c.arrays))
    ensures old(c.world) <= c.world && fresh(c.world - old(c.world))
  {
    hide c.S, Proper, TreeNow, Exec, KeysWithin, Fix, Scopes.Collect, Stored, ProgramOk, ScopeOk, Meant, Healthy;
    ValidScope(c);
    EnactMeant(c.fields, c.H, EffectiveScope(c), u, declared, SessionOf(c), keys);
    var replies, panicked := RunCheck(c, declared, u.check, u.steps);
    if panicked {
      return Panicked;
    }
    if !u.accept(replies) {
      return CheckFailed;
    }
    if c.ongoing {
      replies, panicked := RunProgram(c, declared, u.change, u.steps, keys);
    } else {
      replies, panicked := Transact(c, declared, u.change, u.steps, keys);
    }
    status := if panicked then Panicked else Applied(replies);
  }

  /** Apply on a prepared update: a panic unless the transaction is still the one of Prepare. */
  method ApplyPreparedUpdate(c: Collection, p: Prepared, ghost keys: set<Bytes>) returns (status: Status)
    requires c.Valid() && UpdateOk(c.fields, p.update, keys) && KeysWithin(c.H, c.T(), keys)
    modifies c, c.world, c.arrays
    ensures ScopeOk(EffectiveScope(c)) && EffectiveScope(c) == old(EffectiveScope(c))
    ensures (status, SessionOf(c)) == ApplyPrepared(c.fields, c.H, EffectiveScope(c), p, old(SessionOf(c)))
    ensures p.id == old(c.id) && old(Healthy(c.fields, c.H, c.T(), keys)) ==>
      Meant(c.H, p.update, p.declared, old(Stored(c.T())), status)
    ensures c.Valid()
    ensures old(c.arrays) <= c.arrays && fresh(c.arrays - old(c.arrays))
    ensures old(c.world) <= c.world && fresh(c.world - old(c.world))
  {
    hide c.S, Proper, TreeNow, Enact, KeysWithin, ScopeOk, UpdateOk, Meant, Healthy, Stored;
    ValidScope(c);
    if p.id != c.id {
      return Panicked;
    }
    status := MakeChange(c, p.update, p.declared, keys);
  }

  /** Prepare and Apply of a user update, outside a transaction; the outcome is that of the
      update on trees. A panic may leave a transaction open. */
  method ApplyUserUpdate(c: Collection, u: UserUpdate, pfs: seq<Proof>, ghost f: Tree, ghost keys: set<Bytes>)
      returns (status: Status)
    requires c.Valid() && !c.ongoing && !c.root.inconsistent && View(c.T(), f) && Full(c.fields, c.H, f)
    requires UpdateOk(c.fields, u, keys) && KeysWithin(c.H, f, keys)
    modifies c, c.world, c.arrays
    ensures ScopeOk(EffectiveScope(c)) && EffectiveScope(c) == old(EffectiveScope(c))
    ensures (status, c.T()) == ApplyUpdate(c.fields, c.H, EffectiveScope(c), u, pfs, old(c.T()))
    ensures status == Rejected <==> !AllGood(c.H, f, pfs)
    ensures status != Rejected ==> Meant(c.H, u, Declared(c.H, pfs), Stored(f), status)
    ensures status == Rejected || status == CheckFailed ==> Represents(c.fields, c.H, c.T(), Stored(f))
    ensures status.Applied? ==>
      Represents(c.fields, c.H, c.T(), Changed(c.H, u, Declared(c.H, pfs), Stored(f)))
    ensures c.Valid() && (status != Panicked ==> !c.ongoing)
    ensures c.id == old(c.id) + (if status.Applied? then 1 else 0)
    ensures old(c.arrays) <= c.arrays && fresh(c.arrays - old(c.arrays))
    ensures old(c.world) <= c.world && fresh(c.world - old(c.world))
  {
    hide c.S, Proper, TreeNow, View, Full, Change, VerifyAll, KeysWithin, Stored, Declared, Enact, ScopeOk, UpdateOk,
      AllGood, Meant, Changed, Represents;
    ValidScope(c);
    KeysParts(c.H, f, keys);
    UpdateMeaning(c.fields, c.H, EffectiveScope(c), u, pfs, c.T(), f, keys);
    var p := Prepare(c, u, pfs, f);
    if p == None {
      return Rejected;
    }
    ViewKeys(c.T(), f);
    WithinView(c.H, c.T(), f, keys);
    EnactOutside(c.fields, c.H, EffectiveScope(c), u, p.value.declared, SessionOf(c));
    status := ApplyPreparedUpdate(c, p.value, keys);
  }

  lemma KeysParts(H: Hasher, t: Tree, keys: set<Bytes>)
    requires KeysWithin(H, t, keys)
    ensures Separates(H, keys) && Stored(t).Keys <= keys
  {
  }

  lemma EnactMeant(fs: seq<Field>, H: Hasher, s: Scope, u: UserUpdate, declared: set<Digest>, c: Session,
      keys: set<Bytes>)
    requires ScopeOk(s) && UpdateOk(fs, u, keys)
    ensures Healthy(fs, H, c.tree, keys) ==>
      Meant(H, u, declared, Stored(c.tree), Enact(fs, H, s, u, declared, c).0)
  {
    if Healthy(fs, H, c.tree, keys) {
      PreparedMeaning(fs, H, s, Prepared(c.id, u, declared), c, keys);
    }
  }

  lemma WithinView(H: Hasher, v: Tree, f: Tree, keys: set<Bytes>)
    requires KeysWithin(H, f, keys) && Stored(v).Keys <= Stored(f).Keys
    ensures KeysWithin(H, v, keys)
  {
  }
}
