/** Updates that are prepared first and applied later: what may happen in between. */
module Sessions {
  import opened Fields
  import opened Trie
  import opened Mapping
  import opened Canonical
  import opened Lazy
  import opened Proofs
  import opened Scopes
  import opened Verifiers
  import opened Lockstep
  import opened Scoped
  import Upkeep

  /** An update, the transaction it was prepared in, and the paths of the keys it declared. */
  datatype Prepared = Prepared(id: nat, update: UserUpdate, declared: set<Digest>)

  /** What updates see of a collection. */
  datatype Session = Session(tree: Tree, id: nat, ongoing: bool)

  /** The check and the changes, in the open transaction if there is one, in a new one otherwise.
      A panic leaves a transaction open, the new one, too. */
  ghost function Enact(fs: seq<Field>, H: Hasher, s: Scope, u: UserUpdate, declared: set<Digest>, c: Session):
      (Status, Session)
    requires ScopeOk(s)
  {
    var (status, t) := Attempt(fs, H, u, declared, c.tree);
    match status
    case Applied(_) =>
      if c.ongoing then (status, c.(tree := t)) else (status, Session(Collect(s, Fix(fs, t)), c.id + 1, false))
    case Panicked =>
      (status, c.(tree := t, ongoing := c.ongoing || !Exec(fs, H, declared, u.check, u.steps, c.tree, []).panicked))
    case _ => (status, c)
  }

  /** Apply on a prepared update; it panics unless the transaction is the one of Prepare. */
  ghost function ApplyPrepared(fs: seq<Field>, H: Hasher, s: Scope, p: Prepared, c: Session): (Status, Session)
    requires ScopeOk(s)
  {
    if p.id != c.id then (Panicked, c) else Enact(fs, H, s, p.update, p.declared, c)
  }

  /** Outside a transaction this is what an update does whose proofs have been verified. */
  lemma EnactOutside(fs: seq<Field>, H: Hasher, s: Scope, u: UserUpdate, declared: set<Digest>, c: Session)
    requires ScopeOk(s) && !c.ongoing
    ensures
      var (status, d) := Enact(fs, H, s, u, declared, c);
      && (status, d.tree) == Change(fs, H, s, u, declared, c.tree)
      && d.id == c.id + (if status.Applied? then 1 else 0) && (d.ongoing ==> status == Panicked)
  {
  }

  // ---- each transaction number is used up by at most one update ----

  datatype Log = Log(statuses: seq<Status>, end: Session)

  /** Prepared updates applied one after the other, up to the first panic. */
  ghost function ApplyAll(fs: seq<Field>, H: Hasher, s: Scope, ps: seq<Prepared>, c: Session): Log
    requires ScopeOk(s)
  {
    if ps == [] then Log([], c)
    else
      var (status, d) := ApplyPrepared(fs, H, s, ps[0], c);
      if status == Panicked then Log([status], d)
      else
        var rest := ApplyAll(fs, H, s, ps[1..], d);
        Log([status] + rest.statuses, rest.end)
  }

  ghost function CountApplied(statuses: seq<Status>): nat {
    if statuses == [] then 0 else (if statuses[0].Applied? then 1 else 0) + CountApplied(statuses[1..])
  }

  /** Outside a transaction, an update that has been applied cannot be applied again, nor can any
      other that was prepared before: those that are applied bear strictly increasing ids. */
  lemma {:induction false} AppliedOnce(fs: seq<Field>, H: Hasher, s: Scope, ps: seq<Prepared>, c: Session)
    requires ScopeOk(s) && !c.ongoing
    ensures
      var l := ApplyAll(fs, H, s, ps, c);
      && |l.statuses| <= |ps| && l.end.id == c.id + CountApplied(l.statuses)
      && forall i :: 0 <= i < |l.statuses| && l.statuses[i].Applied? ==>
         ps[i].id == c.id + CountApplied(l.statuses[..i])
  {
    if ps != [] {
      var (status, d) := ApplyPrepared(fs, H, s, ps[0], c);
      EnactOutside(fs, H, s, ps[0].update, ps[0].declared, c);
      if status != Panicked {
        AppliedOnce(fs, H, s, ps[1..], d);
        var l, rest := ApplyAll(fs, H, s, ps, c), ApplyAll(fs, H, s, ps[1..], d);
        assert l.statuses[1..] == rest.statuses;
        forall i | 0 < i < |l.statuses| && l.statuses[i].Applied?
          ensures ps[i].id == c.id + CountApplied(l.statuses[..i])
        {
          assert l.statuses[i] == rest.statuses[i - 1] && ps[i] == ps[1..][i - 1];
          assert l.statuses[..i][1..] == rest.statuses[..i - 1];
        }
      }
    }
  }

  // ---- a call between Prepare and Apply ----

  /** No reply tells anything. */
  ghost predicate TellsNothing(h: seq<Reply>) {
    forall i :: 0 <= i < |h| ==> h[i] in {Returned(Some(UnknownSubtree)), Answer(Unknown), Answer(NoKey)}
  }

  lemma {:induction false} BareAnswers(fs: seq<Field>, H: Hasher, declared: set<Digest>, prog: Program, n: nat, t: Tree,
      h: seq<Reply>)
    requires Bare(t) && ProgramOk(fs, prog) && TellsNothing(h)
    ensures
      var e := Exec(fs, H, declared, prog, n, t, h);
      e.tree == t && TellsNothing(e.replies)
    decreases n
  {
    if n > 0 {
      match prog(h)
      case Done =>
      case Call(op) =>
        if H(op.key) in declared {
          BareAnswers(fs, H, declared, prog, n - 1, t, h + [Returned(Some(UnknownSubtree))]);
        }
      case Query(k) =>
        if H(k) in declared {
          BareAnswers(fs, H, declared, prog, n - 1, t, h + [Answer(Record(H, t, k))]);
        }
    }
  }

  /** On a collection of empty scope a successful call outside a transaction forgets everything but
      the root label, yet leaves the transaction id: an update prepared before it passes the test of
      the id, gets no answer to any of its requests, and changes nothing. */
  lemma PreparedStale(fs: seq<Field>, H: Hasher, p: Prepared, op: Op, c: Session, keys: set<Bytes>)
    requires UpdateOk(fs, p.update, keys) && p.id == c.id && !c.ongoing && Apply(fs, H, false, op, c.tree).Ok?
    ensures
      var c' := c.(tree := Upkeep.Outcome(fs, H, SCOPE_NONE, false, op, c.tree));
      var (status, d) := ApplyPrepared(fs, H, SCOPE_NONE, p, c');
      && Bare(c'.tree) && Bare(d.tree) && d.tree.d.lbl == c'.tree.d.lbl
      && TellsNothing(Exec(fs, H, p.declared, p.update.check, p.update.steps, c'.tree, []).replies)
      && (status.Applied? ==> TellsNothing(status.replies))
  {
    Upkeep.EditRootInner(fs, H, false, op, c.tree);
    EditKnown(fs, H, false, op, c.tree, 0);
    var t := Upkeep.Outcome(fs, H, SCOPE_NONE, false, op, c.tree);
    CheckOk(fs, p.update, keys);
    BareAnswers(fs, H, p.declared, p.update.check, p.update.steps, t, []);
    BareAnswers(fs, H, p.declared, p.update.change, p.update.steps, t, []);
  }

  lemma CheckOk(fs: seq<Field>, u: UserUpdate, keys: set<Bytes>)
    requires UpdateOk(fs, u, keys)
    ensures ProgramOk(fs, u.check) && ProgramOk(fs, u.change)
  {
  }

  lemma CallCovered(fs: seq<Field>, H: Hasher, s: Scope, declared: set<Digest>, op: Op, v: Tree, f: Tree)
    requires ScopeOk(s) && s != SCOPE_NONE && forall q :: q in declared ==> Covers(s, q)
    requires View(v, f) && Full(fs, H, f) && Full(fs, H, After(fs, H, false, op, f))
    requires v.d.known && KnowsAll(v, declared) && H(op.key) in declared && op.key != []
    ensures Upkeep.Failure(Apply(fs, H, false, op, v)) == Upkeep.Failure(Apply(fs, H, false, op, f))
    ensures
      var v' := Upkeep.Outcome(fs, H, s, false, op, v);
      View(v', After(fs, H, false, op, f)) && v'.d.known && KnowsAll(v', declared)
  {
    ViewParts(fs, H, v, f, []);
    CleanDirtyKnown(v);
    EditView(fs, H, false, op, v, f, 0);
    var w, g := After(fs, H, false, op, v), After(fs, H, false, op, f);
    forall q | q in declared ensures Knows(w, q, 0) {
      EditKnows(fs, H, false, op, v, q, 0);
    }
    KeepsCovered(fs, H, s, declared, w, g);
  }

  lemma KeepsCovered(fs: seq<Field>, H: Hasher, s: Scope, declared: set<Digest>, w: Tree, g: Tree)
    requires ScopeOk(s) && s != SCOPE_NONE && forall q :: q in declared ==> Covers(s, q)
    requires View(w, g) && Full(fs, H, g) && KnowsAll(w, declared) && w.d.known
    ensures View(Collect(s, w), g) && Collect(s, w).d.known && KnowsAll(Collect(s, w), declared)
  {
    ViewParts(fs, H, w, g, []);
    ViewReflexive(w, g);
    CollectView(s, w);
    ViewTransitive(Collect(s, w), w, g);
    forall q | q in declared ensures Knows(Collect(s, w), q, 0) {
      CollectKnows(s, w, q);
    }
  }

  /** A scope that covers the declared keys and the key of the call keeps the prepared update good:
      the view stays in step with the whole collection through the call and through the update. */
  lemma PreparedHolds(fs: seq<Field>, H: Hasher, s: Scope, p: Prepared, op: Op, v: Tree, f: Tree, keys: set<Bytes>)
    requires ScopeOk(s) && s != SCOPE_NONE && View(v, f) && Full(fs, H, f) && UpdateOk(fs, p.update, keys)
    requires Separates(H, keys) && Stored(f).Keys <= keys && op.key in keys && OpOk(fs, op) && op.key != []
    requires v.d.known && KnowsAll(v, p.declared) && H(op.key) in p.declared
    requires forall q :: q in p.declared ==> Covers(s, q)
    ensures
      var v' := Upkeep.Outcome(fs, H, s, false, op, v);
      var f' := After(fs, H, false, op, f);
      var (a, v'') := Change(fs, H, s, p.update, p.declared, v');
      var (b, f'') := Change(fs, H, SCOPE_ALL, p.update, p.declared, f');
      && Upkeep.Failure(Apply(fs, H, false, op, v)) == Upkeep.Failure(Apply(fs, H, false, op, f))
      && a == b && (a.Applied? ==> NeverUnknown(a.replies))
      && (a != Panicked ==> View(v'', f''))
  {
    var v' := Upkeep.Outcome(fs, H, s, false, op, v);
    var f' := After(fs, H, false, op, f);
    ApplyFull(fs, H, op, f);
    CallCovered(fs, H, s, p.declared, op, v, f);
    ViewParts(fs, H, v', f', []);
    CleanDirtyKnown(v');
    hide Covers, View, Full, KnowsAll, Apply, Scopes.Collect;
    ChangeInStep(fs, H, s, p.update, p.declared, v', f', keys);
  }
}
