/** The ledger step on a finite map: what each change stores, which transactions are accepted, and
    what is in the collection afterwards. */
module LedgerMeaning {
  import opened Fields
  import opened Trie
  import opened Mapping
  import opened Canonical
  import opened Scopes
  import opened Proofs
  import opened Upkeep
  import opened Ledger

  // ---- the step on maps ----

  /** Creating asks for a new key that is not empty, updating and removing for a stored one; an
      object is its value and its contract. */
  ghost function MapEnter(sc: StateChange, m: Contents): Option<Contents> {
    match sc.action
    case 1 => if sc.key != [] && sc.key !in m then Some(m[sc.key := [sc.value, sc.contract]]) else None
    case 2 => if sc.key in m then Some(m[sc.key := [sc.value, sc.contract]]) else None
    case 3 => if sc.key in m then Some(m - {sc.key}) else None
    case _ => None
  }

  ghost function MapEnterAll(scs: seq<StateChange>, m: Contents): Option<Contents> {
    if scs == [] then Some(m)
    else match MapEnter(scs[0], m)
      case None => None
      case Some(m') => MapEnterAll(scs[1..], m')
  }

  ghost function LookedUp(m: Contents, k: Bytes): Lookup {
    if k == [] then NoKey else if k in m then Found(m[k]) else Absent
  }

  /** The contract of an instruction: the one it names, or the one its object belongs to. */
  ghost function MapKind(m: Contents, instr: Instruction): Option<Bytes> {
    match instr.spawn
    case Some(kind) => Some(kind)
    case None => if instr.key != [] && instr.key in m && |m[instr.key]| == 2 then Some(m[instr.key][1]) else None
  }

  ghost function MapConsult(m: Contents, f: Contract, instr: Instruction, seen: seq<Lookup>, n: nat):
      Option<seq<StateChange>>
    decreases n
  {
    match f(instr, seen)
    case Fail => None
    case Yield(scs) => Some(scs)
    case Look(k) => if n == 0 then None else MapConsult(m, f, instr, seen + [LookedUp(m, k)], n - 1)
  }

  /** What an instruction asks to be changed. */
  ghost function MapChanges(r: Registry, m: Contents, instr: Instruction): Option<seq<StateChange>> {
    var kind := MapKind(m, instr);
    if kind.Some? && kind.value in r.contracts then MapConsult(m, r.contracts[kind.value], instr, [], r.looks)
    else None
  }

  /** The map after an instruction. */
  ghost function MapStep(r: Registry, m: Contents, instr: Instruction): Option<Contents> {
    match MapChanges(r, m, instr)
    case None => None
    case Some(scs) => MapEnterAll(scs, m)
  }

  datatype MapTrial = MapTrial(ok: bool, contents: Contents, emitted: seq<StateChange>)

  ghost function MapTry(r: Registry, instrs: seq<Instruction>, m: Contents): MapTrial {
    if instrs == [] then MapTrial(true, m, [])
    else match MapStep(r, m, instrs[0])
      case None => MapTrial(false, m, [])
      case Some(m') =>
        var rest := MapTry(r, instrs[1..], m');
        MapTrial(rest.ok, rest.contents, MapChanges(r, m, instrs[0]).value + rest.emitted)
  }

  datatype MapBatch = MapBatch(contents: Contents, accepted: seq<Transaction>, states: seq<StateChange>)

  /** Every transaction is tried on the map that the accepted ones before have left. */
  ghost function MapFold(r: Registry, cts: seq<Transaction>, m: Contents): MapBatch {
    if cts == [] then MapBatch(m, [], [])
    else
      var trial := MapTry(r, cts[0], m);
      var rest := MapFold(r, cts[1..], if trial.ok then trial.contents else m);
      MapBatch(rest.contents, if trial.ok then [cts[0]] + rest.accepted else rest.accepted,
        trial.emitted + rest.states)
  }

  // ---- collections come to the same ----

  /** A collection that keeps everything. */
  ghost predicate Entire(l: Setting, t: Tree, keys: set<Bytes>) {
    && l.scope == SCOPE_ALL && Full(FIELDS, l.H, t) && Stored(t).Keys <= keys && Separates(l.H, keys)
  }

  /** The change names a key in play; it is not empty, unless the change creates and so fails. */
  ghost predicate Fit(sc: StateChange, keys: set<Bytes>) {
    sc.key in keys && (sc.key != [] || sc.action == CREATE)
  }

  ghost predicate FitAll(scs: seq<StateChange>, keys: set<Bytes>) {
    forall i :: 0 <= i < |scs| ==> Fit(scs[i], keys)
  }

  /** The contracts yield only such changes. */
  ghost predicate FitRegistry(r: Registry, keys: set<Bytes>) {
    forall kind, instr, seen :: kind in r.contracts && r.contracts[kind](instr, seen).Yield? ==>
      FitAll(r.contracts[kind](instr, seen).changes, keys)
  }

  /** One change: when it can be entered, and what is stored then. */
  lemma EnterMeaning(l: Setting, sc: StateChange, t: Tree, keys: set<Bytes>)
    requires Entire(l, t, keys) && Fit(sc, keys)
    ensures Enter(l, sc, t).Some? <==> MapEnter(sc, Stored(t)).Some?
    ensures Enter(l, sc, t).Some? ==>
      Entire(l, Enter(l, sc, t).value, keys) && Some(Stored(Enter(l, sc, t).value)) == MapEnter(sc, Stored(t))
  {
    var op := StoreOp(sc);
    if op.Some? && sc.key != [] {
      ApplyFull(FIELDS, l.H, op.value, t);
      CollectAll(After(FIELDS, l.H, false, op.value, t));
      StoredPlaced(FIELDS, l.H, t, []);
      OpMeaning(sc, Stored(t));
    }
  }

  lemma OpMeaning(sc: StateChange, m: Contents)
    requires StoreOp(sc).Some? && sc.key != [] && forall k :: k in m ==> |m[k]| == 2
    ensures MapOp(StoreOp(sc).value, m) == MapEnter(sc, m)
  {
    if sc.action == UPDATE && sc.key in m {
      assert MapOp(StoreOp(sc).value, m).value[sc.key] == [sc.value, sc.contract];
    }
  }

  lemma {:induction false} EnterAllMeaning(l: Setting, scs: seq<StateChange>, t: Tree, keys: set<Bytes>)
    requires SettingOk(l) && Entire(l, t, keys) && FitAll(scs, keys)
    ensures EnterAll(l, scs, t).Some? <==> MapEnterAll(scs, Stored(t)).Some?
    ensures EnterAll(l, scs, t).Some? ==>
      && Entire(l, EnterAll(l, scs, t).value, keys)
      && Some(Stored(EnterAll(l, scs, t).value)) == MapEnterAll(scs, Stored(t))
    decreases |scs|
  {
    hide Entire, Enter, MapEnter, Stored;
    if scs != [] {
      EnterMeaning(l, scs[0], t, keys);
      if Enter(l, scs[0], t).Some? {
        EnterAllMeaning(l, scs[1..], Enter(l, scs[0], t).value, keys);
      }
    }
  }

  lemma LookedUpIs(l: Setting, t: Tree, k: Bytes, keys: set<Bytes>)
    requires Entire(l, t, keys)
    ensures Record(l.H, t, k) == LookedUp(Stored(t), k)
  {
    if k != [] {
      RecordIsStored(FIELDS, l.H, t, k);
    }
  }

  lemma KindMeaning(l: Setting, t: Tree, instr: Instruction, keys: set<Bytes>)
    requires Entire(l, t, keys)
    ensures Kind(l, t, instr) == MapKind(Stored(t), instr)
  {
    LookedUpIs(l, t, instr.key, keys);
  }

  lemma {:induction false} ConsultMeaning(l: Setting, t: Tree, f: Contract, instr: Instruction, seen: seq<Lookup>,
      n: nat, keys: set<Bytes>)
    requires Entire(l, t, keys)
    ensures Consult(l, t, f, instr, seen, n) == MapConsult(Stored(t), f, instr, seen, n)
    decreases n
  {
    match f(instr, seen)
    case Look(k) =>
      if n > 0 {
        LookedUpIs(l, t, k, keys);
        ConsultMeaning(l, t, f, instr, seen + [Record(l.H, t, k)], n - 1, keys);
      }
    case _ =>
  }

  lemma {:induction false} ConsultFit(r: Registry, m: Contents, kind: Bytes, instr: Instruction, seen: seq<Lookup>,
      n: nat, keys: set<Bytes>)
    requires FitRegistry(r, keys) && kind in r.contracts
    ensures MapConsult(m, r.contracts[kind], instr, seen, n).Some? ==>
      FitAll(MapConsult(m, r.contracts[kind], instr, seen, n).value, keys)
    decreases n
  {
    match r.contracts[kind](instr, seen)
    case Look(k) =>
      if n > 0 {
        ConsultFit(r, m, kind, instr, seen + [LookedUp(m, k)], n - 1, keys);
      }
    case _ =>
  }

  lemma ChangesMeaning(l: Setting, instr: Instruction, t: Tree, keys: set<Bytes>)
    requires Entire(l, t, keys) && FitRegistry(l.registry, keys)
    ensures Changes(l, instr, t) == MapChanges(l.registry, Stored(t), instr)
    ensures Changes(l, instr, t).Some? ==> FitAll(Changes(l, instr, t).value, keys)
  {
    KindMeaning(l, t, instr, keys);
    var kind := Kind(l, t, instr);
    if kind.Some? && kind.value in l.registry.contracts {
      ConsultMeaning(l, t, l.registry.contracts[kind.value], instr, [], l.registry.looks, keys);
      ConsultFit(l.registry, Stored(t), kind.value, instr, [], l.registry.looks, keys);
    }
  }

  lemma {:induction false} TryMeaning(l: Setting, instrs: seq<Instruction>, t: Tree, keys: set<Bytes>)
    requires Entire(l, t, keys) && FitRegistry(l.registry, keys) && SettingOk(l)
    ensures
      var a, b := Try(l, instrs, t), MapTry(l.registry, instrs, Stored(t));
      && a.ok == b.ok && a.emitted == b.emitted && Entire(l, a.tree, keys)
      && (a.ok ==> Stored(a.tree) == b.contents && FitAll(a.emitted, keys))
    decreases |instrs|
  {
    hide Entire, Changes, EnterAll, MapChanges, MapEnterAll, Stored, FitRegistry;
    if instrs != [] {
      ChangesMeaning(l, instrs[0], t, keys);
      var scs := Changes(l, instrs[0], t);
      if scs.Some? {
        EnterAllMeaning(l, scs.value, t, keys);
        if EnterAll(l, scs.value, t).Some? {
          TryMeaning(l, instrs[1..], EnterAll(l, scs.value, t).value, keys);
        }
      }
    }
  }

  /** The ledger step is the one on the map: the same transactions are accepted, the same changes
      returned, and the collection stores the resulting pairs, which are those that the changes of
      the accepted transactions make of the pairs before. */
  lemma FoldMeaning(l: Setting, cts: seq<Transaction>, t: Tree, keys: set<Bytes>)
    requires Entire(l, t, keys) && FitRegistry(l.registry, keys) && SettingOk(l)
    ensures
      var b := Fold(l, cts, t);
      && MapBatch(Stored(b.tree), b.accepted, b.states) == MapFold(l.registry, cts, Stored(t))
      && Entire(l, b.tree, keys)
      && MapEnterAll(AcceptedChanges(l, cts, t), Stored(t)) == Some(Stored(b.tree))
  {
    hide Entire, Try, MapTry, Stored, FitRegistry;
    FoldStep(l, cts, t, keys);
    AcceptedFit(l, cts, t, keys);
    EnterAllMeaning(l, AcceptedChanges(l, cts, t), t, keys);
    AcceptedReplay(l, cts, t);
  }

  lemma {:induction false} FoldStep(l: Setting, cts: seq<Transaction>, t: Tree, keys: set<Bytes>)
    requires Entire(l, t, keys) && FitRegistry(l.registry, keys) && SettingOk(l)
    ensures
      var b := Fold(l, cts, t);
      MapBatch(Stored(b.tree), b.accepted, b.states) == MapFold(l.registry, cts, Stored(t)) && Entire(l, b.tree, keys)
    decreases |cts|
  {
    hide Entire, Try, MapTry, Stored, FitRegistry;
    if cts != [] {
      var trial := Try(l, cts[0], t);
      TryMeaning(l, cts[0], t, keys);
      FoldStep(l, cts[1..], if trial.ok then trial.tree else t, keys);
    }
  }

  lemma {:induction false} AcceptedFit(l: Setting, cts: seq<Transaction>, t: Tree, keys: set<Bytes>)
    requires Entire(l, t, keys) && FitRegistry(l.registry, keys) && SettingOk(l)
    ensures FitAll(AcceptedChanges(l, cts, t), keys)
    decreases |cts|
  {
    hide Entire, Try, MapTry, Stored, FitRegistry;
    if cts != [] {
      var trial := Try(l, cts[0], t);
      TryMeaning(l, cts[0], t, keys);
      AcceptedFit(l, cts[1..], if trial.ok then trial.tree else t, keys);
    }
  }
}
