/** The ledger step: client transactions are tried one after the other on copies of a
    collection, and only those that succeed as a whole leave a trace in the outcome. */
module Ledger {
  import opened Fields
  import opened Trie
  import opened Mapping
  import opened Canonical
  import opened Scopes
  import opened Proofs
  import opened Upkeep

  /** The fields of a ledger: the value of an object, and the contract it belongs to. */
  const FIELDS: seq<Field> := [Data, Data]

  const CREATE := 1
  const UPDATE := 2
  const REMOVE := 3

  datatype StateChange = StateChange(action: int, key: Bytes, contract: Bytes, value: Bytes)

  /** Spawn names its contract; other instructions refer to an object. `body` is what the
      contract makes of the rest. */
  datatype Instruction = Instruction(spawn: Option<Bytes>, key: Bytes, body: Bytes)

  /** A contract looks up keys, one after the other, and then decides. */
  datatype Move = Look(key: Bytes) | Fail | Yield(changes: seq<StateChange>)

  type Contract = (Instruction, seq<Lookup>) -> Move

  /** The registered contracts, and a bound on the number of keys any of them looks up. */
  datatype Registry = Registry(contracts: map<Bytes, Contract>, looks: nat)

  datatype Setting = Setting(H: Hasher, scope: Scope, registry: Registry)

  ghost predicate SettingOk(l: Setting) {
    ScopeOk(l.scope)
  }

  /** The contract of the object that an instruction is about. */
  function KindOf(found: Lookup): Option<Bytes> {
    if found.Found? && |found.values| == 2 then Some(found.values[1]) else None
  }

  ghost function Kind(l: Setting, t: Tree, instr: Instruction): Option<Bytes> {
    if instr.spawn.Some? then instr.spawn else KindOf(Record(l.H, t, instr.key))
  }

  ghost function Consult(l: Setting, t: Tree, f: Contract, instr: Instruction, seen: seq<Lookup>,
      n: nat): Option<seq<StateChange>>
    decreases n
  {
    match f(instr, seen)
    case Fail => None
    case Yield(scs) => Some(scs)
    case Look(k) => if n == 0 then None else Consult(l, t, f, instr, seen + [Record(l.H, t, k)], n - 1)
  }

  /** storeInColl */
  function StoreOp(sc: StateChange): Option<Op> {
    if sc.action == CREATE then Some(Add(sc.key, [sc.value, sc.contract]))
    else if sc.action == UPDATE then Some(Set(sc.key, [Some(sc.value), Some(sc.contract)]))
    else if sc.action == REMOVE then Some(Remove(sc.key))
    else None
  }

  ghost function Enter(l: Setting, sc: StateChange, t: Tree): Option<Tree>
    requires SettingOk(l)
  {
    match StoreOp(sc)
    case None => None
    case Some(op) =>
      if Apply(FIELDS, l.H, false, op, t).Ok? then Some(Outcome(FIELDS, l.H, l.scope, false, op, t)) else None
  }

  ghost function EnterAll(l: Setting, scs: seq<StateChange>, t: Tree): Option<Tree>
    requires SettingOk(l)
  {
    if scs == [] then Some(t)
    else match Enter(l, scs[0], t)
      case None => None
      case Some(t') => EnterAll(l, scs[1..], t')
  }

  /** What an instruction asks to be changed. */
  ghost function Changes(l: Setting, instr: Instruction, t: Tree): Option<seq<StateChange>> {
    match Kind(l, t, instr)
    case None => None
    case Some(kind) =>
      if kind !in l.registry.contracts then None
      else Consult(l, t, l.registry.contracts[kind], instr, [], l.registry.looks)
  }

  /** What has become of a transaction, and the changes it has handed out, which a failure
      does not take back. */
  datatype Trial = Trial(ok: bool, tree: Tree, emitted: seq<StateChange>)

  ghost function Try(l: Setting, instrs: seq<Instruction>, t: Tree): Trial
    requires SettingOk(l)
    decreases |instrs|
  {
    if instrs == [] then Trial(true, t, [])
    else match Changes(l, instrs[0], t)
      case None => Trial(false, t, [])
      case Some(scs) =>
        match EnterAll(l, scs, t)
        case None => Trial(false, t, [])
        case Some(t') =>
          var rest := Try(l, instrs[1..], t');
          Trial(rest.ok, rest.tree, scs + rest.emitted)
  }

  /** The collection as instruction `i` finds it; None if one before it fails. */
  ghost function Met(l: Setting, instrs: seq<Instruction>, t: Tree, i: nat): Option<Tree>
    requires SettingOk(l) && i < |instrs|
  {
    if i == 0 then Some(t)
    else if Fails(l, instrs[0], t) then None
    else Met(l, instrs[1..], EnterAll(l, Changes(l, instrs[0], t).value, t).value, i - 1)
  }

  /** A transaction is accepted exactly if none of its instructions fails where it is reached. */
  lemma {:induction false} AcceptedIff(l: Setting, instrs: seq<Instruction>, t: Tree)
    requires SettingOk(l)
    ensures Try(l, instrs, t).ok <==>
      forall i :: 0 <= i < |instrs| && Met(l, instrs, t, i).Some? ==>
        !Fails(l, instrs[i], Met(l, instrs, t, i).value)
    decreases |instrs|
  {
    if instrs != [] {
      assert Met(l, instrs, t, 0) == Some(t);
      if !Fails(l, instrs[0], t) {
        var t' := EnterAll(l, Changes(l, instrs[0], t).value, t).value;
        AcceptedIff(l, instrs[1..], t');
        forall i | 0 < i < |instrs| ensures Met(l, instrs, t, i) == Met(l, instrs[1..], t', i - 1) {
        }
        forall i | 0 <= i < |instrs[1..]| ensures Met(l, instrs[1..], t', i) == Met(l, instrs, t, i + 1) {
        }
        assert forall i :: 0 < i < |instrs| ==> instrs[i] == instrs[1..][i - 1];
        assert forall i :: 0 <= i < |instrs[1..]| ==> instrs[1..][i] == instrs[i + 1];
      }
    }
  }

  type Transaction = seq<Instruction>

  datatype Batch = Batch(tree: Tree, accepted: seq<Transaction>, states: seq<StateChange>)

  /** createStateChanges */
  ghost function Fold(l: Setting, cts: seq<Transaction>, t: Tree): Batch
    requires SettingOk(l)
  {
    if cts == [] then Batch(t, [], [])
    else
      var trial := Try(l, cts[0], t);
      var rest := Fold(l, cts[1..], if trial.ok then trial.tree else t);
      Batch(rest.tree, if trial.ok then [cts[0]] + rest.accepted else rest.accepted, trial.emitted + rest.states)
  }

  // ---- atomicity ----

  ghost predicate Subsequence<T(!new)>(xs: seq<T>, ys: seq<T>)
    decreases |ys|
  {
    xs == [] || (ys != [] && ((xs[0] == ys[0] && Subsequence(xs[1..], ys[1..])) || Subsequence(xs, ys[1..])))
  }

  /** The accepted transactions, in their order; running those alone accepts them all and ends
      in the same tree, so the others have left no trace. */
  lemma {:induction false} Atomic(l: Setting, cts: seq<Transaction>, t: Tree)
    requires SettingOk(l)
    ensures
      var b := Fold(l, cts, t);
      && Subsequence(b.accepted, cts)
      && Fold(l, b.accepted, t).tree == b.tree && Fold(l, b.accepted, t).accepted == b.accepted
  {
    if cts != [] {
      var trial := Try(l, cts[0], t);
      var t' := if trial.ok then trial.tree else t;
      Atomic(l, cts[1..], t');
      if trial.ok {
        var rest := Fold(l, cts[1..], t').accepted;
        assert ([cts[0]] + rest)[1..] == rest;
      }
    }
  }

  // ---- the returned changes ----

  lemma {:induction false} EnterConcat(l: Setting, a: seq<StateChange>, b: seq<StateChange>, t: Tree)
    requires SettingOk(l)
    ensures EnterAll(l, a + b, t) == match EnterAll(l, a, t)
      case None => None
      case Some(t') => EnterAll(l, b, t')
    decreases |a|
  {
    if a == [] {
      assert a + b == b;
    } else {
      assert (a + b)[1..] == a[1..] + b;
      if Enter(l, a[0], t).Some? {
        EnterConcat(l, a[1..], b, Enter(l, a[0], t).value);
      }
    }
  }

  /** What a transaction that succeeds hands out is what it has stored. */
  lemma {:induction false} TryReplays(l: Setting, instrs: seq<Instruction>, t: Tree)
    requires SettingOk(l) && Try(l, instrs, t).ok
    ensures EnterAll(l, Try(l, instrs, t).emitted, t) == Some(Try(l, instrs, t).tree)
    decreases |instrs|
  {
    if instrs != [] {
      var scs := Changes(l, instrs[0], t).value;
      var t' := EnterAll(l, scs, t).value;
      TryReplays(l, instrs[1..], t');
      EnterConcat(l, scs, Try(l, instrs[1..], t').emitted, t);
    }
  }

  /** The changes of the accepted transactions. */
  ghost function AcceptedChanges(l: Setting, cts: seq<Transaction>, t: Tree): seq<StateChange>
    requires SettingOk(l)
  {
    if cts == [] then []
    else
      var trial := Try(l, cts[0], t);
      if trial.ok then trial.emitted + AcceptedChanges(l, cts[1..], trial.tree) else AcceptedChanges(l, cts[1..], t)
  }

  /** An instruction fails: its object or contract is missing, the contract refuses, or one of the
      changes cannot be entered. */
  ghost predicate Fails(l: Setting, instr: Instruction, t: Tree)
    requires SettingOk(l)
  {
    Changes(l, instr, t) == None || EnterAll(l, Changes(l, instr, t).value, t) == None
  }

  /** The transaction fails at instruction `n`, and the instructions before ask for no change. */
  ghost predicate FailsAt(l: Setting, instrs: seq<Instruction>, t: Tree, n: nat)
    requires SettingOk(l)
  {
    n < |instrs| && Fails(l, instrs[n], t) && forall i :: 0 <= i < n ==> Changes(l, instrs[i], t) == Some([])
  }

  ghost predicate FailsIdle(l: Setting, instrs: seq<Instruction>, t: Tree)
    requires SettingOk(l)
  {
    exists n: nat :: FailsAt(l, instrs, t, n)
  }

  lemma {:induction false} RejectedIdle(l: Setting, instrs: seq<Instruction>, t: Tree)
    requires SettingOk(l)
    ensures FailsIdle(l, instrs, t) <==> !Try(l, instrs, t).ok && Try(l, instrs, t).emitted == []
    decreases |instrs|
  {
    if instrs != [] {
      if Fails(l, instrs[0], t) {
        assert FailsAt(l, instrs, t, 0);
      } else {
        var t' := EnterAll(l, Changes(l, instrs[0], t).value, t).value;
        RejectedIdle(l, instrs[1..], t');
        if n: nat :| FailsAt(l, instrs, t, n) {
          assert n > 0 && t' == t;
          assert FailsAt(l, instrs[1..], t, n - 1);
        }
        if n: nat :| Changes(l, instrs[0], t) == Some([]) && FailsAt(l, instrs[1..], t', n) {
          assert FailsAt(l, instrs, t, n + 1);
        }
      }
    }
  }

  /** Every transaction that is rejected fails before any of its instructions asks for a change. */
  ghost predicate FailsEarly(l: Setting, cts: seq<Transaction>, t: Tree)
    requires SettingOk(l)
  {
    cts == [] ||
    var trial := Try(l, cts[0], t);
    (trial.ok || FailsIdle(l, cts[0], t)) && FailsEarly(l, cts[1..], if trial.ok then trial.tree else t)
  }

  lemma {:induction false} AcceptedReplay(l: Setting, cts: seq<Transaction>, t: Tree)
    requires SettingOk(l)
    ensures EnterAll(l, AcceptedChanges(l, cts, t), t) == Some(Fold(l, cts, t).tree)
  {
    if cts != [] {
      var trial := Try(l, cts[0], t);
      if trial.ok {
        TryReplays(l, cts[0], t);
        AcceptedReplay(l, cts[1..], trial.tree);
        EnterConcat(l, trial.emitted, AcceptedChanges(l, cts[1..], trial.tree), t);
      } else {
        AcceptedReplay(l, cts[1..], t);
      }
    }
  }

  lemma {:induction false} StatesLonger(l: Setting, cts: seq<Transaction>, t: Tree)
    requires SettingOk(l)
    ensures |Fold(l, cts, t).states| >= |AcceptedChanges(l, cts, t)|
  {
    if cts != [] {
      var trial := Try(l, cts[0], t);
      StatesLonger(l, cts[1..], if trial.ok then trial.tree else t);
    }
  }

  /** The returned changes are those of the accepted transactions exactly if no rejected one has
      an instruction that asks for a change before the one that fails. */
  lemma {:induction false} StatesExact(l: Setting, cts: seq<Transaction>, t: Tree)
    requires SettingOk(l)
    ensures Fold(l, cts, t).states == AcceptedChanges(l, cts, t) <==> FailsEarly(l, cts, t)
  {
    if cts != [] {
      var trial := Try(l, cts[0], t);
      var t' := if trial.ok then trial.tree else t;
      StatesExact(l, cts[1..], t');
      StatesLonger(l, cts[1..], t');
      RejectedIdle(l, cts[0], t);
      var all, own := Fold(l, cts[1..], t').states, AcceptedChanges(l, cts[1..], t');
      if trial.ok {
        assert (trial.emitted + all)[|trial.emitted|..] == all && (trial.emitted + own)[|trial.emitted|..] == own;
      } else if trial.emitted == [] {
        assert trial.emitted + all == all;
      } else {
        assert |trial.emitted + all| > |own|;
      }
    }
  }

  /** And then they replay to the collection that was computed. */
  lemma StatesReplay(l: Setting, cts: seq<Transaction>, t: Tree)
    requires SettingOk(l) && FailsEarly(l, cts, t)
    ensures EnterAll(l, Fold(l, cts, t).states, t) == Some(Fold(l, cts, t).tree)
  {
    StatesExact(l, cts, t);
    AcceptedReplay(l, cts, t);
  }

  /** A transaction whose second instruction asks for a contract that nobody has registered is
      rejected, but the change of its first instruction is returned all the same, and the
      returned changes no longer replay to the collection. */
  lemma RejectedLeavesChanges(H: Hasher)
    ensures
      var f: Contract := (instr: Instruction, seen: seq<Lookup>) => Yield([StateChange(CREATE, instr.key, [1], [])]);
      var l := Setting(H, SCOPE_ALL, Registry(map[[1] := f], 0));
      var cts := [[Instruction(Some([1]), [7], []), Instruction(Some([2]), [8], [])]];
      var b := Fold(l, cts, Empty(FIELDS));
      && SettingOk(l) && b.accepted == [] && b.tree == Empty(FIELDS)
      && b.states == [StateChange(CREATE, [7], [1], [])]
      && EnterAll(l, b.states, Empty(FIELDS)) != Some(b.tree)
  {
    var f: Contract := (instr: Instruction, seen: seq<Lookup>) => Yield([StateChange(CREATE, instr.key, [1], [])]);
    var l := Setting(H, SCOPE_ALL, Registry(map[[1] := f], 0));
    var first, second := Instruction(Some([1]), [7], []), Instruction(Some([2]), [8], []);
    var t := Empty(FIELDS);
    var sc := StateChange(CREATE, [7], [1], []);
    assert Changes(l, first, t) == Some([sc]);
    EnterFirst(H, l, sc, t);
    var t' := Enter(l, sc, t).value;
    assert EnterAll(l, [sc], t) == Some(t') by {
      assert [sc][1..] == [];
    }
    assert Changes(l, second, t') == None;
    assert [first, second][1..] == [second];
    assert Try(l, [second], t') == Trial(false, t', []);
    assert Try(l, [first, second], t) == Trial(false, t', [sc] + []);
    assert [sc] + [] == [sc];
    var cts := [[first, second]];
    assert cts[1..] == [];
  }

  lemma EnterFirst(H: Hasher, l: Setting, sc: StateChange, t: Tree)
    requires l.H == H && l.scope == SCOPE_ALL && sc.action == CREATE && sc.key != [] && t == Empty(FIELDS)
    ensures Enter(l, sc, t).Some? && Enter(l, sc, t).value != t
  {
    var op := StoreOp(sc).value;
    EmptyFull(FIELDS, H);
    ApplyFull(FIELDS, H, op, t);
    CollectAll(After(FIELDS, H, false, op, t));
    assert sc.key in Stored(After(FIELDS, H, false, op, t));
  }
}
