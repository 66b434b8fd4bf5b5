/** What Add, Set and Remove do to the stored pairs, value by value, whatever the collection
    knows and forgets. */
module Effects {
  import opened Fields
  import opened Trie
  import opened Mapping
  import opened Canonical
  import opened Lazy
  import opened Scopes
  import opened Verifiers
  import opened Upkeep

  /** The pairs other than that of the key are as before, but for those forgotten. */
  ghost predicate OthersStay(key: Bytes, m: Contents, m': Contents) {
    forall k :: k in m' && k != key ==> k in m && m'[k] == m[k]
  }

  /** Nothing is forgotten: the call is part of a transaction, or everything is in scope. */
  predicate Keeps(scope: Scope, lazy: bool) {
    lazy || scope == SCOPE_ALL
  }

  /** Add: the key was not stored, and if it is now it has the given values, one for each field. */
  ghost predicate AddDone(fs: seq<Field>, scope: Scope, lazy: bool, key: Bytes, values: seq<Value>, m: Contents,
      m': Contents)
    requires AdmitsAll(fs, values)
  {
    && key != [] && key !in m && OthersStay(key, m, m')
    && (key in m' ==> |m'[key]| == |fs| && forall i :: 0 <= i < |fs| ==> m'[key][i] == Encode(fs[i], values[i]))
    && (Keeps(scope, lazy) ==> m'.Keys == m.Keys + {key})
  }

  /** Set: the key was stored, and if it still is, then each field has the value given for it, or
      the value of before if none was given. */
  ghost predicate SetDone(fs: seq<Field>, scope: Scope, lazy: bool, key: Bytes, values: seq<Option<Value>>,
      m: Contents, m': Contents)
    requires AdmitsSome(fs, values)
  {
    && key in m && |m[key]| == |fs| && OthersStay(key, m, m')
    && (key in m' ==> |m'[key]| == |fs| && forall i :: 0 <= i < |fs| ==>
          m'[key][i] == if values[i].Some? then Encode(fs[i], values[i].value) else m[key][i])
    && (Keeps(scope, lazy) ==> m'.Keys == m.Keys)
  }

  /** SetField: only the value of that field is another. */
  ghost predicate FieldDone(fs: seq<Field>, scope: Scope, lazy: bool, key: Bytes, field: int, value: Value,
      m: Contents, m': Contents)
    requires 0 <= field < |fs| ==> Admits(fs[field], value)
  {
    && key in m && |m[key]| == |fs| && OthersStay(key, m, m')
    && (key in m' ==> |m'[key]| == |fs| && forall i :: 0 <= i < |fs| ==>
          m'[key][i] == if i == field then Encode(fs[i], value) else m[key][i])
    && (Keeps(scope, lazy) ==> m'.Keys == m.Keys)
  }

  ghost predicate RemoveDone(scope: Scope, lazy: bool, key: Bytes, m: Contents, m': Contents) {
    && key in m && key !in m' && OthersStay(key, m, m')
    && (Keeps(scope, lazy) ==> m'.Keys == m.Keys - {key})
  }

  // ---- garbage collection ----

  /** What is stored after garbage collection was stored before. */
  ghost predicate Within(m: Contents, m': Contents) {
    forall k :: k in m' ==> k in m && m'[k] == m[k]
  }

  lemma {:induction false} CollectAtWithin(fs: seq<Field>, H: Hasher, s: Scope, t: Tree, p: Path)
    requires ScopeOk(s) && Placed(fs, H, t, p)
    ensures Within(Stored(t), Stored(CollectAt(s, t, p)))
  {
    if t.Inner? && t.d.known {
      CollectAtWithin(fs, H, s, t.left, p + [false]);
      CollectAtWithin(fs, H, s, t.right, p + [true]);
      SidesDisjoint(fs, H, t, p);
    }
  }

  lemma CollectWithin(fs: seq<Field>, H: Hasher, s: Scope, t: Tree)
    requires ScopeOk(s) && Placed(fs, H, t, [])
    ensures Within(Stored(t), Stored(Collect(s, t)))
    ensures s == SCOPE_ALL ==> Collect(s, t) == t
  {
    CollectAll(t);
    if t.Inner? {
      assert [] + [false] == [false] && [] + [true] == [true];
      CollectAtWithin(fs, H, s, t.left, [false]);
      CollectAtWithin(fs, H, s, t.right, [true]);
      SidesDisjoint(fs, H, t, []);
    }
  }

  /** The map operation, and what garbage collection leaves of it. */
  lemma CallStored(fs: seq<Field>, H: Hasher, scope: Scope, lazy: bool, op: Op, t: Tree) returns (m: Contents)
    requires ScopeOk(scope) && Placed(fs, H, t, []) && OpOk(fs, op) && op.key != []
    requires Apply(fs, H, lazy, op, t).Ok?
    ensures MapOp(op, Stored(t)) == Some(m) && Within(m, Stored(Outcome(fs, H, scope, lazy, op, t)))
    ensures Keeps(scope, lazy) ==> Stored(Outcome(fs, H, scope, lazy, op, t)) == m
  {
    var t' := Apply(fs, H, lazy, op, t).tree;
    EditOk(fs, H, lazy, op, t, []);
    EditPlaced(fs, H, lazy, op, t, []);
    CollectWithin(fs, H, scope, t');
    m := Stored(t');
  }

  /** On a whole collection a call fails exactly if the map operation does. */
  lemma CallFails(fs: seq<Field>, H: Hasher, lazy: bool, op: Op, t: Tree)
    requires Placed(fs, H, t, []) && t.Inner? && FullyKnown(t) && OpOk(fs, op) && op.key != []
      && Apart(H, Stored(t), op.key)
    ensures Apply(fs, H, lazy, op, t).Ok? <==> MapOp(op, Stored(t)).Some?
    ensures Apply(fs, H, lazy, op, t).Err? ==>
      Apply(fs, H, lazy, op, t).error == if op.Add? then KeyCollision else KeyNotFound
  {
    EditMap(fs, H, lazy, op, t, []);
  }

  ghost predicate Whole(H: Hasher, t: Tree, key: Bytes) {
    t.Inner? && FullyKnown(t) && Apart(H, Stored(t), key)
  }

  lemma AddEffect(fs: seq<Field>, H: Hasher, scope: Scope, lazy: bool, key: Bytes, values: seq<Value>, t: Tree)
    requires ScopeOk(scope) && Placed(fs, H, t, []) && AdmitsAll(fs, values)
    ensures
      var op := Op.Add(key, EncodeAll(fs, values));
      var err := Failure(Apply(fs, H, lazy, op, t));
      && (err == None ==> AddDone(fs, scope, lazy, key, values, Stored(t), Stored(Outcome(fs, H, scope, lazy, op, t))))
      && (key == [] ==> err == Some(EmptyKey))
      && (key != [] && Whole(H, t, key) ==> err == if key in Stored(t) then Some(KeyCollision) else None)
  {
    var op := Op.Add(key, EncodeAll(fs, values));
    if key != [] && Apply(fs, H, lazy, op, t).Ok? {
      var m := CallStored(fs, H, scope, lazy, op, t);
    }
    if key != [] && Whole(H, t, key) {
      CallFails(fs, H, lazy, op, t);
    }
  }

  lemma SetOfMap(fs: seq<Field>, scope: Scope, lazy: bool, key: Bytes, values: seq<Option<Value>>, m0: Contents,
      m: Contents, m': Contents)
    requires AdmitsSome(fs, values) && MapOp(Op.Set(key, EncodeSome(fs, values)), m0) == Some(m)
    requires (key in m0 ==> |m0[key]| == |fs|) && Within(m, m') && (Keeps(scope, lazy) ==> m' == m)
    ensures SetDone(fs, scope, lazy, key, values, m0, m')
  {
  }

  lemma SetEffect(fs: seq<Field>, H: Hasher, scope: Scope, lazy: bool, key: Bytes, values: seq<Option<Value>>, t: Tree)
    requires ScopeOk(scope) && Placed(fs, H, t, []) && AdmitsSome(fs, values) && key != []
    ensures
      var op := Op.Set(key, EncodeSome(fs, values));
      var err := Failure(Apply(fs, H, lazy, op, t));
      && (err == None ==> SetDone(fs, scope, lazy, key, values, Stored(t), Stored(Outcome(fs, H, scope, lazy, op, t))))
      && (Whole(H, t, key) ==> err == if key in Stored(t) then None else Some(KeyNotFound))
  {
    hide SetDone, EncodeSome, Outcome, Apply, Placed;
    var op := Op.Set(key, EncodeSome(fs, values));
    if Apply(fs, H, lazy, op, t).Ok? {
      StoredPlaced(fs, H, t, []);
      var m := CallStored(fs, H, scope, lazy, op, t);
      SetOfMap(fs, scope, lazy, key, values, Stored(t), m, Stored(Outcome(fs, H, scope, lazy, op, t)));
    }
    if Whole(H, t, key) {
      CallFails(fs, H, lazy, op, t);
    }
  }

  /** SetField is a Set that gives one value. */
  lemma FieldEffect(fs: seq<Field>, scope: Scope, lazy: bool, key: Bytes, values: seq<Option<Value>>, field: int,
      value: Value, m: Contents, m': Contents)
    requires AdmitsSome(fs, values) && SetDone(fs, scope, lazy, key, values, m, m')
    requires 0 <= field < |fs| ==> Admits(fs[field], value)
    requires forall i :: 0 <= i < |fs| ==> values[i] == if i == field then Some(value) else None
    ensures FieldDone(fs, scope, lazy, key, field, value, m, m')
  {
  }

  lemma RemoveEffect(fs: seq<Field>, H: Hasher, scope: Scope, lazy: bool, key: Bytes, t: Tree)
    requires ScopeOk(scope) && Placed(fs, H, t, []) && key != []
    ensures
      var op := Op.Remove(key);
      var err := Failure(Apply(fs, H, lazy, op, t));
      && (err == None ==> RemoveDone(scope, lazy, key, Stored(t), Stored(Outcome(fs, H, scope, lazy, op, t))))
      && (Whole(H, t, key) ==> err == if key in Stored(t) then None else Some(KeyNotFound))
  {
    var op := Op.Remove(key);
    if Apply(fs, H, lazy, op, t).Ok? {
      var m := CallStored(fs, H, scope, lazy, op, t);
    }
    if Whole(H, t, key) {
      CallFails(fs, H, lazy, op, t);
    }
  }
}
