/** The ledger step on collections: copies are tried out and kept or dropped as a whole. */
module Service {
  import opened Fields
  import opened Trie
  import opened Mapping
  import opened Canonical
  import opened Undo
  import opened Scopes
  import opened Proofs
  import opened Store
  import opened StoreEnd
  import opened Upkeep
  import opened Collections
  import Creation
  import Getters
  import opened Updates
  import opened Ledger
  import opened LedgerMeaning
  import opened Effects

  // ---- the keys in play, and flags ----

  lemma {:induction false} CollectAtKeys(s: Scope, t: Tree, p: Path)
    requires ScopeOk(s)
    ensures Stored(CollectAt(s, t, p)).Keys <= Stored(t).Keys && (Clean(t) ==> Clean(CollectAt(s, t, p)))
  {
    if t.Inner? && t.d.known {
      CollectAtKeys(s, t.left, p + [false]);
      CollectAtKeys(s, t.right, p + [true]);
    }
  }

  lemma CollectKeys(s: Scope, t: Tree)
    requires ScopeOk(s)
    ensures Stored(Collect(s, t)).Keys <= Stored(t).Keys && (Clean(t) ==> Clean(Collect(s, t)))
  {
    if t.Inner? {
      CollectAtKeys(s, t.left, [false]);
      CollectAtKeys(s, t.right, [true]);
    }
  }

  ghost predicate Workable(H: Hasher, t: Tree, keys: set<Bytes>) {
    KeysWithin(H, t, keys) && Clean(t)
  }

  lemma ApplyWorkable(H: Hasher, op: Op, t: Tree, keys: set<Bytes>)
    requires Workable(H, t, keys) && op.key in keys && Apply(FIELDS, H, false, op, t).Ok?
    ensures Workable(H, Apply(FIELDS, H, false, op, t).tree, keys)
  {
    hide Edit, Clean, Stored;
    EditKeys(FIELDS, H, false, op, t, 0);
    EditClean(FIELDS, H, op, t, 0);
  }

  lemma CollectWorkable(H: Hasher, scope: Scope, t: Tree, keys: set<Bytes>)
    requires ScopeOk(scope) && Workable(H, t, keys)
    ensures Workable(H, Collect(scope, t), keys)
  {
    hide Collect, Clean, Stored;
    CollectKeys(scope, t);
  }

  lemma StoreWorkable(l: Setting, sc: StateChange, t: Tree, keys: set<Bytes>)
    requires SettingOk(l) && Workable(l.H, t, keys) && sc.key in keys
    ensures Apart(l.H, Stored(t), sc.key)
    ensures Enter(l, sc, t).Some? ==> Workable(l.H, Enter(l, sc, t).value, keys)
  {
    if Enter(l, sc, t).Some? {
      hide Workable, Apply, Collect;
      var op := StoreOp(sc).value;
      ApplyWorkable(l.H, op, t, keys);
      CollectWorkable(l.H, l.scope, Apply(FIELDS, l.H, false, op, t).tree, keys);
    }
  }

  lemma {:induction false} PlainOfClean(t: Tree)
    ensures Clean(Plain(t)) && (Clean(t) ==> Plain(t) == t)
  {
    if t.Inner? {
      PlainOfClean(t.left);
      PlainOfClean(t.right);
    }
  }

  lemma PlainWorkable(fs: seq<Field>, H: Hasher, t: Tree, keys: set<Bytes>)
    requires KeysWithin(H, t, keys)
    ensures Workable(H, Plain(t), keys) && (Clean(t) ==> Plain(t) == t)
  {
    PlainOfClean(t);
    PlainKeeps(fs, H, t, []);
  }

  /** The contracts name only keys in play. */
  ghost predicate NamesWithin(r: Registry, keys: set<Bytes>) {
    forall kind, instr, seen :: kind in r.contracts && r.contracts[kind](instr, seen).Yield? ==>
      ChangesWithin(r.contracts[kind](instr, seen).changes, keys)
  }

  ghost predicate ChangesWithin(scs: seq<StateChange>, keys: set<Bytes>) {
    forall i :: 0 <= i < |scs| ==> scs[i].key in keys
  }

  ghost function SettingOf(c: Collection, r: Registry): Setting
    reads c
  {
    Setting(c.H, c.scope, r)
  }

  ghost predicate Ready(c: Collection, keys: set<Bytes>)
    reads c, c.world, c.arrays
  {
    c.Valid() && !c.ongoing && c.fields == FIELDS && Workable(c.H, c.T(), keys)
  }

  // ---- methods ----

  /** storeInColl */
  method StoreInColl(c: Collection, sc: StateChange, ghost r: Registry, ghost keys: set<Bytes>) returns (ok: bool)
    requires Ready(c, keys) && sc.key in keys
    modifies c`nodes, c`world, c`arrays, c.world, c.arrays
    ensures SettingOk(SettingOf(c, r)) && Ready(c, keys)
    ensures ok <==> Enter(SettingOf(c, r), sc, old(c.T())).Some?
    ensures c.T() == if ok then Enter(SettingOf(c, r), sc, old(c.T())).value else old(c.T())
    ensures Fit(sc, keys) && old(Entire(SettingOf(c, r), c.T(), keys)) ==>
      MapEnter(sc, old(Stored(c.T()))) == if ok then Some(Stored(c.T())) else None
    ensures old(c.arrays) <= c.arrays && fresh(c.arrays - old(c.arrays)) && old(c.world) <= c.world
      && fresh(c.world - old(c.world))
  {
    hide c.S, Proper, TreeNow, Apply, Workable, Apart, Stored, Scopes.Collect, Entire, MapEnter, AddDone, SetDone,
      RemoveDone, Whole;
    ValidScope(c);
    StoreWorkable(SettingOf(c, r), sc, c.T(), keys);
    EnterMeant(SettingOf(c, r), sc, c.T(), keys);
    var err;
    if sc.action == CREATE {
      assert EncodeAll(FIELDS, [Raw(sc.value), Raw(sc.contract)]) == [sc.value, sc.contract];
      err := c.Add(sc.key, [Raw(sc.value), Raw(sc.contract)]);
      ok := err == None;
    } else if sc.action == UPDATE {
      assert EncodeSome(FIELDS, [Some(Raw(sc.value)), Some(Raw(sc.contract))]) == [Some(sc.value), Some(sc.contract)];
      err := c.Set(sc.key, [Some(Raw(sc.value)), Some(Raw(sc.contract))]);
      ok := err == None;
    } else if sc.action == REMOVE {
      err := c.Remove(sc.key);
      ok := err == None;
    } else {
      ok := false;
    }
  }

  lemma EnterMeant(l: Setting, sc: StateChange, t: Tree, keys: set<Bytes>)
    requires SettingOk(l)
    ensures Fit(sc, keys) && Entire(l, t, keys) ==>
      MapEnter(sc, Stored(t)) == if Enter(l, sc, t).Some? then Some(Stored(Enter(l, sc, t).value)) else None
  {
    if Fit(sc, keys) && Entire(l, t, keys) {
      EnterMeaning(l, sc, t, keys);
    }
  }

  /** GetContractState */
  method ContractOf(c: Collection, instr: Instruction, ghost r: Registry) returns (kind: Option<Bytes>)
    requires c.Valid()
    ensures kind == Kind(SettingOf(c, r), c.T(), instr)
  {
    if instr.spawn.Some? {
      return instr.spawn;
    }
    var found := Getters.Record(c, instr.key);
    kind := KindOf(found);
  }

  /** Calling a contract, which reads the collection and decides. */
  method Call(c: Collection, f: Contract, instr: Instruction, r: Registry) returns (scs: Option<seq<StateChange>>)
    requires c.Valid()
    ensures scs == Consult(SettingOf(c, r), c.T(), f, instr, [], r.looks)
  {
    hide c.S, Proper, TreeNow, Proofs.Record;
    var seen, n := [], r.looks;
    while true
      invariant Consult(SettingOf(c, r), c.T(), f, instr, [], r.looks) ==
        Consult(SettingOf(c, r), c.T(), f, instr, seen, n)
      decreases n
    {
      match f(instr, seen) {
      case Fail => return None;
      case Yield(changes) => return Some(changes);
      case Look(k) =>
        if n == 0 {
          return None;
        }
        var found := Getters.Record(c, k);
        seen := seen + [found];
        n := n - 1;
      }
    }
  }

  lemma {:induction false} ConsultWithin(l: Setting, t: Tree, kind: Bytes, instr: Instruction, seen: seq<Lookup>,
      n: nat, keys: set<Bytes>)
    requires NamesWithin(l.registry, keys) && kind in l.registry.contracts
    ensures
      var scs := Consult(l, t, l.registry.contracts[kind], instr, seen, n);
      scs.Some? ==> ChangesWithin(scs.value, keys)
    decreases n
  {
    var f := l.registry.contracts[kind];
    if f(instr, seen).Look? && n > 0 {
      ConsultWithin(l, t, kind, instr, seen + [Record(l.H, t, f(instr, seen).key)], n - 1, keys);
    }
  }

  /** The changes of one instruction are stored; the first failure ends it. */
  method StoreChanges(c: Collection, scs: seq<StateChange>, ghost r: Registry, ghost keys: set<Bytes>)
      returns (ok: bool)
    requires Ready(c, keys) && ChangesWithin(scs, keys)
    modifies c`nodes, c`world, c`arrays, c.world, c.arrays
    ensures SettingOk(SettingOf(c, r)) && Ready(c, keys)
    ensures ok <==> EnterAll(SettingOf(c, r), scs, old(c.T())).Some?
    ensures ok ==> EnterAll(SettingOf(c, r), scs, old(c.T())) == Some(c.T())
    ensures old(c.arrays) <= c.arrays && fresh(c.arrays - old(c.arrays)) && old(c.world) <= c.world
      && fresh(c.world - old(c.world))
  {
    hide c.S, Proper, TreeNow, Enter, Workable;
    ValidScope(c);
    var i := 0;
    while i < |scs|
      invariant i <= |scs| && Ready(c, keys)
      invariant EnterAll(SettingOf(c, r), scs[i..], c.T()) == EnterAll(SettingOf(c, r), scs, old(c.T()))
      invariant old(c.arrays) <= c.arrays && fresh(c.arrays - old(c.arrays)) && old(c.world) <= c.world
        && fresh(c.world - old(c.world))
    {
      assert scs[i..][1..] == scs[i + 1..];
      ok := StoreInColl(c, scs[i], r, keys);
      if !ok {
        return;
      }
      i := i + 1;
    }
    ok := true;
  }

  /** One transaction is tried on a collection made for it. */
  method TryTransaction(c: Collection, ct: Transaction, r: Registry, ghost keys: set<Bytes>)
      returns (ok: bool, emitted: seq<StateChange>)
    requires Ready(c, keys) && NamesWithin(r, keys)
    modifies c`nodes, c`world, c`arrays, c.world, c.arrays
    ensures SettingOk(SettingOf(c, r)) && Ready(c, keys)
    ensures
      var trial := Try(SettingOf(c, r), ct, old(c.T()));
      trial.ok == ok && trial.emitted == emitted && (ok ==> trial.tree == c.T())
    ensures old(c.arrays) <= c.arrays && fresh(c.arrays - old(c.arrays)) && old(c.world) <= c.world
      && fresh(c.world - old(c.world))
  {
    hide c.S, Proper, TreeNow, Workable, NamesWithin, ChangesWithin, Consult, Kind, EnterAll;
    ValidScope(c);
    var i := 0;
    emitted := [];
    EmittedNothing(Try(SettingOf(c, r), ct, c.T()));
    while i < |ct|
      invariant i <= |ct| && Ready(c, keys)
      invariant Glued(emitted, Try(SettingOf(c, r), ct[i..], c.T())) == Try(SettingOf(c, r), ct, old(c.T()))
      invariant old(c.arrays) <= c.arrays && fresh(c.arrays - old(c.arrays)) && old(c.world) <= c.world
        && fresh(c.world - old(c.world))
    {
      assert ct[i..][1..] == ct[i + 1..];
      assert emitted + [] == emitted;
      var kind := ContractOf(c, ct[i], r);
      if kind == None {
        return false, emitted;
      }
      if kind.value !in r.contracts {
        return false, emitted;
      }
      ConsultWithin(SettingOf(c, r), c.T(), kind.value, ct[i], [], r.looks, keys);
      var scs := Call(c, r.contracts[kind.value], ct[i], r);
      if scs == None {
        return false, emitted;
      }
      var stored := StoreChanges(c, scs.value, r, keys);
      if !stored {
        return false, emitted;
      }
      EmittedMore(emitted, scs.value, Try(SettingOf(c, r), ct[i + 1..], c.T()));
      emitted := emitted + scs.value;
      i := i + 1;
    }
    assert ct[i..] == [] && emitted + [] == emitted;
    ok := true;
  }

  ghost function Glued(before: seq<StateChange>, trial: Trial): Trial {
    Trial(trial.ok, trial.tree, before + trial.emitted)
  }

  lemma EmittedNothing(trial: Trial)
    ensures Glued([], trial) == trial
  {
    assert [] + trial.emitted == trial.emitted;
  }

  lemma EmittedMore(a: seq<StateChange>, b: seq<StateChange>, trial: Trial)
    ensures Glued(a, Trial(trial.ok, trial.tree, b + trial.emitted)) == Glued(a + b, trial)
  {
    assert a + (b + trial.emitted) == (a + b) + trial.emitted;
  }

  /** A transaction is tried on a copy. */
  method TryOnCopy(cdb: Collection, ct: Transaction, r: Registry, ghost keys: set<Bytes>)
      returns (copy: Collection, ok: bool, emitted: seq<StateChange>)
    requires Ready(cdb, keys) && NamesWithin(r, keys)
    ensures SettingOk(SettingOf(cdb, r)) && fresh(copy) && Ready(copy, keys) && SettingOf(copy, r) == SettingOf(cdb, r)
    ensures
      var trial := Try(SettingOf(cdb, r), ct, cdb.T());
      trial.ok == ok && trial.emitted == emitted && (ok ==> trial.tree == copy.T())
  {
    hide Collection.S, Proper, TreeNow, Workable, KeysWithin, NamesWithin, Plain, Try, Stored, ScopeOk, Clean;
    ReadyKeys(cdb, keys);
    copy := Creation.Clone(cdb);
    PlainWorkable(cdb.fields, cdb.H, cdb.T(), keys);
    ok, emitted := TryTransaction(copy, ct, r, keys);
  }

  /** createStateChanges: every transaction is tried on a copy, which replaces the collection
      worked on if the whole transaction succeeds. The collection given is not changed. */
  method CreateStateChanges(coll: Collection, cts: seq<Transaction>, r: Registry, ghost keys: set<Bytes>)
      returns (cdb: Collection, accepted: seq<Transaction>, states: seq<StateChange>)
    requires coll.Valid() && !coll.ongoing && coll.fields == FIELDS && KeysWithin(coll.H, coll.T(), keys)
      && NamesWithin(r, keys)
    ensures SettingOk(SettingOf(coll, r)) && fresh(cdb) && Ready(cdb, keys)
    ensures Fold(SettingOf(coll, r), cts, Plain(coll.T())) == Batch(cdb.T(), accepted, states)
    ensures FitRegistry(r, keys) && Entire(SettingOf(coll, r), Plain(coll.T()), keys) ==>
      MapFold(r, cts, Stored(coll.T())) == MapBatch(Stored(cdb.T()), accepted, states)
    ensures coll.Valid() && coll.T() == old(coll.T())
  {
    hide Collection.S, Proper, TreeNow, Workable, KeysWithin, NamesWithin, Plain, Try, Entire, FitRegistry, MapFold,
      Stored, ScopeOk, Clean, Fold, FoldGlued;
    ValidScope(coll);
    ghost var l, t := SettingOf(coll, r), Plain(coll.T());
    FoldMeant(l, cts, coll.T(), keys);
    cdb := Creation.Clone(coll);
    PlainWorkable(coll.fields, coll.H, coll.T(), keys);
    accepted, states := [], [];
    FoldNothing(Fold(l, cts, t));
    var i := 0;
    while i < |cts|
      invariant i <= |cts| && fresh(cdb) && Ready(cdb, keys) && SettingOf(cdb, r) == l
      invariant FoldGlued(accepted, states, Fold(l, cts[i..], cdb.T())) == Fold(l, cts, t)
    {
      ghost var before := cdb.T();
      var copy, ok, emitted := TryOnCopy(cdb, cts[i], r, keys);
      FoldNext(l, cts, i, before, accepted, states);
      states := states + emitted;
      if ok {
        cdb := copy;
        accepted := accepted + [cts[i]];
      }
      i := i + 1;
    }
    FoldEnds(l, cts[i..], cdb.T(), accepted, states);
  }

  /** One transaction of the fold. */
  lemma FoldNext(l: Setting, cts: seq<Transaction>, i: nat, t: Tree, a: seq<Transaction>, x: seq<StateChange>)
    requires SettingOk(l) && i < |cts|
    ensures
      var trial := Try(l, cts[i], t);
      FoldGlued(a, x, Fold(l, cts[i..], t)) ==
        if trial.ok then FoldGlued(a + [cts[i]], x + trial.emitted, Fold(l, cts[i + 1..], trial.tree))
        else FoldGlued(a, x + trial.emitted, Fold(l, cts[i + 1..], t))
  {
    assert cts[i..][0] == cts[i] && cts[i..][1..] == cts[i + 1..];
    var trial := Try(l, cts[i], t);
    FoldMore(a, x, if trial.ok then [cts[i]] else [], trial.emitted,
      Fold(l, cts[i + 1..], if trial.ok then trial.tree else t));
    assert a + [] == a;
    assert [] + Fold(l, cts[i + 1..], t).accepted == Fold(l, cts[i + 1..], t).accepted;
  }

  lemma FoldEnds(l: Setting, rest: seq<Transaction>, t: Tree, a: seq<Transaction>, x: seq<StateChange>)
    requires SettingOk(l) && rest == []
    ensures FoldGlued(a, x, Fold(l, rest, t)) == Batch(t, a, x)
  {
    assert a + [] == a && x + [] == x;
  }

  lemma FoldMeant(l: Setting, cts: seq<Transaction>, t: Tree, keys: set<Bytes>)
    requires SettingOk(l)
    ensures
      var b := Fold(l, cts, Plain(t));
      FitRegistry(l.registry, keys) && Entire(l, Plain(t), keys) ==>
        MapFold(l.registry, cts, Stored(t)) == MapBatch(Stored(b.tree), b.accepted, b.states)
  {
    PlainKeeps(FIELDS, l.H, t, []);
    if FitRegistry(l.registry, keys) && Entire(l, Plain(t), keys) {
      FoldMeaning(l, cts, Plain(t), keys);
    }
  }

  lemma ReadyKeys(c: Collection, keys: set<Bytes>)
    requires Ready(c, keys)
    ensures KeysWithin(c.H, c.T(), keys) && Clean(c.T())
  {
  }

  ghost function FoldGlued(accepted: seq<Transaction>, states: seq<StateChange>, b: Batch): Batch {
    Batch(b.tree, accepted + b.accepted, states + b.states)
  }

  lemma FoldNothing(b: Batch)
    ensures FoldGlued([], [], b) == b
  {
    assert [] + b.accepted == b.accepted && [] + b.states == b.states;
  }

  lemma FoldMore(a: seq<Transaction>, x: seq<StateChange>, a1: seq<Transaction>, x1: seq<StateChange>, b: Batch)
    ensures FoldGlued(a, x, FoldGlued(a1, x1, b)) == FoldGlued(a + a1, x + x1, b)
  {
    assert a + (a1 + b.accepted) == (a + a1) + b.accepted;
    assert x + (x1 + b.states) == (x + x1) + b.states;
  }

  // ---- trying and undoing ----

  /** The map after the pairs have been added. */
  function Added(m: Contents, scs: seq<StateChange>): Contents {
    if scs == [] then m
    else
      var last := scs[|scs| - 1];
      Added(m, scs[..|scs| - 1])[last.key := [last.value, last.contract]]
  }

  /** All the pairs can be added, one after the other. */
  ghost predicate Addable(m: Contents, scs: seq<StateChange>) {
    forall i :: 0 <= i < |scs| ==> scs[i].key != [] && scs[i].key !in Added(m, scs[..i])
  }

  ghost predicate Pure(c: Collection, keys: set<Bytes>)
    reads c, c.world, c.arrays
  {
    && c.Valid() && !c.ongoing && c.fields == FIELDS && c.scope == SCOPE_ALL
    && Full(FIELDS, c.H, c.T()) && Stored(c.T()).Keys <= keys && Separates(c.H, keys)
  }

  /** A call on a collection that keeps all its nodes. */
  lemma CallPure(H: Hasher, op: Op, t: Tree, keys: set<Bytes>)
    requires Full(FIELDS, H, t) && Stored(t).Keys <= keys && Separates(H, keys) && op.key in keys
    requires OpOk(FIELDS, op) && op.key != []
    ensures Apart(H, Stored(t), op.key)
    ensures
      var t' := Outcome(FIELDS, H, SCOPE_ALL, false, op, t);
      && Full(FIELDS, H, t') && (Apply(FIELDS, H, false, op, t).Ok? <==> MapOp(op, Stored(t)).Some?)
      && Stored(t') == (if MapOp(op, Stored(t)).Some? then MapOp(op, Stored(t)).value else Stored(t))
      && Stored(t').Keys <= keys
  {
    ApplyFull(FIELDS, H, op, t);
    CollectAll(After(FIELDS, H, false, op, t));
  }

  method AddOne(c: Collection, sc: StateChange, ghost keys: set<Bytes>) returns (ok: bool)
    requires Pure(c, keys) && sc.key in keys
    modifies c`nodes, c`world, c`arrays, c.world, c.arrays
    ensures Pure(c, keys) && (ok <==> sc.key != [] && sc.key !in old(Stored(c.T())))
    ensures ok ==> Stored(c.T()) == old(Stored(c.T()))[sc.key := [sc.value, sc.contract]]
    ensures !ok ==> c.T() == old(c.T())
    ensures old(c.arrays) <= c.arrays && fresh(c.arrays - old(c.arrays)) && old(c.world) <= c.world
      && fresh(c.world - old(c.world))
  {
    hide c.S, Proper, TreeNow, Full, Edit, Scopes.Collect;
    var values := [Raw(sc.value), Raw(sc.contract)];
    assert EncodeAll(FIELDS, values) == [sc.value, sc.contract];
    ghost var op := Op.Add(sc.key, [sc.value, sc.contract]);
    if sc.key != [] {
      CallPure(c.H, op, c.T(), keys);
    }
    var err := c.Add(sc.key, values);
    ok := err == None;
  }

  method RemoveOne(c: Collection, key: Bytes, ghost keys: set<Bytes>) returns (ok: bool)
    requires Pure(c, keys) && key in keys && key != [] && key in Stored(c.T())
    modifies c`nodes, c`arrays, c.world
    ensures Pure(c, keys) && ok && Stored(c.T()) == old(Stored(c.T())) - {key}
    ensures old(c.arrays) <= c.arrays && fresh(c.arrays - old(c.arrays))
  {
    hide c.S, Proper, TreeNow, Full, Edit, Scopes.Collect;
    CallPure(c.H, Op.Remove(key), c.T(), keys);
    var err := c.Remove(key);
    ok := err == None;
  }

  /** The first `i` pairs have been added to the map `m`. */
  ghost predicate Reached(c: Collection, m: Contents, scs: seq<StateChange>, i: int, keys: set<Bytes>)
    reads c, c.world, c.arrays
  {
    && Pure(c, keys) && 0 <= i <= |scs| && ChangesWithin(scs, keys)
    && Stored(c.T()) == Added(m, scs[..i]) && Addable(m, scs[..i])
  }

  method AddNext(c: Collection, ghost m: Contents, scs: seq<StateChange>, i: nat, ghost keys: set<Bytes>)
      returns (ok: bool)
    requires i < |scs| && Reached(c, m, scs, i, keys)
    modifies c`nodes, c`world, c`arrays, c.world, c.arrays
    ensures Reached(c, m, scs, if ok then i + 1 else i, keys) && (!ok ==> !Addable(m, scs))
    ensures old(c.arrays) <= c.arrays && fresh(c.arrays - old(c.arrays)) && old(c.world) <= c.world
      && fresh(c.world - old(c.world))
  {
    hide c.S, Pure, Stored, Added, Addable;
    ok := AddOne(c, scs[i], keys);
    if ok {
      AddableMore(m, scs, i);
    } else {
      NotAddable(m, scs, i);
    }
  }

  method TakeLast(c: Collection, ghost m: Contents, scs: seq<StateChange>, i: nat, ghost keys: set<Bytes>)
    requires 0 < i && Reached(c, m, scs, i, keys)
    modifies c`nodes, c`arrays, c.world
    ensures Reached(c, m, scs, i - 1, keys)
    ensures old(c.arrays) <= c.arrays && fresh(c.arrays - old(c.arrays))
  {
    hide c.S, Pure, Stored, Added, Addable;
    AddableLess(m, scs, i - 1);
    var gone := RemoveOne(c, scs[i - 1].key, keys);
  }

  lemma NoneReached(c: Collection, scs: seq<StateChange>, keys: set<Bytes>)
    requires Pure(c, keys) && ChangesWithin(scs, keys)
    ensures Reached(c, Stored(c.T()), scs, 0, keys) && Full(FIELDS, c.H, c.T())
  {
  }

  lemma BackAtStart(c: Collection, scs: seq<StateChange>, t: Tree, keys: set<Bytes>)
    requires Reached(c, Stored(t), scs, 0, keys) && Full(FIELDS, c.H, t)
    ensures Pure(c, keys) && c.T() == t
  {
    SameMapSameTree(FIELDS, c.H, c.T(), t);
  }

  lemma AllReached(c: Collection, m: Contents, scs: seq<StateChange>, keys: set<Bytes>)
    requires Reached(c, m, scs, |scs|, keys)
    ensures Addable(m, scs) && c.root.key == []
  {
    assert scs[..|scs|] == scs;
    RootKeyEmpty(c, keys);
  }

  /** tryHash: the pairs are added, and removed again in the opposite order, whether or not all
      of them could be added. What it returns is empty, since GetRoot is the key of the root. */
  method TryHash(c: Collection, scs: seq<StateChange>, ghost keys: set<Bytes>) returns (mr: Option<Bytes>)
    requires Pure(c, keys) && ChangesWithin(scs, keys)
    modifies c`nodes, c`world, c`arrays, c.world, c.arrays
    ensures Pure(c, keys) && c.T() == old(c.T())
    ensures mr == if Addable(old(Stored(c.T())), scs) then Some([]) else None
  {
    hide c.S, Proper, TreeNow, Full, Stored, Pure, Reached, Addable, ChangesWithin;
    ghost var t, m := c.T(), Stored(c.T());
    NoneReached(c, scs, keys);
    var i := 0;
    var ok := true;
    while i < |scs| && ok
      invariant i <= |scs| && Reached(c, m, scs, i, keys) && (!ok ==> !Addable(m, scs))
      invariant old(c.arrays) <= c.arrays && fresh(c.arrays - old(c.arrays)) && old(c.world) <= c.world
        && fresh(c.world - old(c.world))
      decreases |scs| - i, ok
    {
      ok := AddNext(c, m, scs, i, keys);
      if ok {
        i := i + 1;
      }
    }
    if ok {
      AllReached(c, m, scs, keys);
      mr := Some(c.root.key);
    } else {
      mr := None;
    }
    while i > 0
      invariant 0 <= i <= |scs| && Reached(c, m, scs, i, keys)
      invariant old(c.arrays) <= c.arrays && fresh(c.arrays - old(c.arrays)) && old(c.world) <= c.world
        && fresh(c.world - old(c.world))
    {
      TakeLast(c, m, scs, i, keys);
      i := i - 1;
    }
    BackAtStart(c, scs, t, keys);
  }

  lemma AddedMore(m: Contents, scs: seq<StateChange>, i: nat)
    requires i < |scs|
    ensures Added(m, scs[..i + 1]) == Added(m, scs[..i])[scs[i].key := [scs[i].value, scs[i].contract]]
  {
    assert scs[..i + 1][..i] == scs[..i];
  }

  lemma AddableMore(m: Contents, scs: seq<StateChange>, i: nat)
    requires i < |scs| && Addable(m, scs[..i]) && scs[i].key != [] && scs[i].key !in Added(m, scs[..i])
    ensures Addable(m, scs[..i + 1])
    ensures Added(m, scs[..i + 1]) == Added(m, scs[..i])[scs[i].key := [scs[i].value, scs[i].contract]]
  {
    hide Added;
    AddedMore(m, scs, i);
    assert scs[..i + 1][..i] == scs[..i];
    forall j | 0 <= j < i + 1 ensures scs[j].key != [] && scs[j].key !in Added(m, scs[..i + 1][..j]) {
      assert scs[..i + 1][..j] == scs[..j];
      if j < i {
        assert scs[..i][..j] == scs[..j] && scs[..i][j] == scs[j];
      }
    }
  }

  lemma AddableLess(m: Contents, scs: seq<StateChange>, i: nat)
    requires i < |scs| && Addable(m, scs[..i + 1])
    ensures Addable(m, scs[..i]) && scs[i].key != [] && scs[i].key in Added(m, scs[..i + 1])
    ensures Added(m, scs[..i + 1]) - {scs[i].key} == Added(m, scs[..i])
  {
    assert scs[..i + 1][..i] == scs[..i] && scs[..i + 1][i] == scs[i];
    forall j | 0 <= j < i ensures scs[..i][j].key != [] && scs[..i][j].key !in Added(m, scs[..i][..j]) {
      assert scs[..i][..j] == scs[..i + 1][..j] && scs[..i + 1][j] == scs[..i][j];
    }
  }

  lemma NotAddable(m: Contents, scs: seq<StateChange>, i: nat)
    requires i < |scs| && !(scs[i].key != [] && scs[i].key !in Added(m, scs[..i]))
    ensures !Addable(m, scs)
  {
  }

  lemma RootKeyEmpty(c: Collection, keys: set<Bytes>)
    requires Pure(c, keys)
    ensures c.root.key == []
  {
    Getters.RootLooked(c);
    Getters.LookedStill(c, c.root, []);
  }
}
