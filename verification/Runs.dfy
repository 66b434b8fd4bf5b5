/** Transactions that are rolled back. */
module Runs {
  import opened Fields
  import opened Trie
  import opened Mapping
  import opened Lazy
  import opened Undo
  import opened Store
  import opened StoreSteps
  import opened StoreSweep
  import opened StoreEnd
  import opened StoreTies
  import opened Upkeep
  import opened Collections
  import opened Updates
  import Creation

  /** Begin, any calls, and Rollback: what is left is the tree of Begin, but for the values of the
      leaves that `Undone` tells; the links between its nodes are in order and no backup remains.
      If no call harms it is the tree of Begin, and the collection can go on; but the root stays
      flagged once a call has succeeded, and while it is flagged no proof is verified. All flags
      that are left are closed toward the root, so that the next End clears them. */
  method Abandon(c: Collection, ops: seq<Op>, ghost keys: set<Bytes>)
    requires c.Valid() && !c.ongoing && Callable(c.fields, ops) && KeysWithin(c.H, c.T(), keys)
    requires forall op :: op in ops ==> op.key in keys
    modifies c, c.world, c.arrays
    ensures !c.ongoing && Still(c.S())
    ensures Plain(c.T()) == Undone(c.fields, c.H, ops, old(c.T()), NO_TIES, Plain(old(c.T())))
    ensures c.root.inconsistent == c.T().d.dirty && Closed(c.T())
    ensures c.root.inconsistent <==> old(c.T().d.dirty) || SomeSucceed(c.fields, c.H, ops, old(c.T()))
    ensures Careful(c.fields, c.H, ops, old(c.T()), NO_TIES) ==> c.Valid() && Plain(c.T()) == Plain(old(c.T()))
  {
    hide c.S, Proper, TreeNow, SavedTree, Tied, Still, KeysWithin, Apply, Retie, Restain, Upright, Plain, Untouched,
      Closed;
    ghost var t := c.T();
    ghost var w := NO_TIES;
    ProperUpright(c.fields, c.H, c.scope, false, c.S());
    CarefulRun(c.fields, c.H, ops, t);
    c.Begin();
    for i := 0 to |ops|
      invariant c.Valid() && c.ongoing && KeysWithin(c.H, c.T(), keys) && Tied(c.fields, c.H, c.S(), w)
      invariant c.T().d.dirty || SomeSucceed(c.fields, c.H, ops[i..], c.T()) <==>
        t.d.dirty || SomeSucceed(c.fields, c.H, ops, t)
      invariant Undone(c.fields, c.H, ops[i..], c.T(), w, c.BackTo()) ==
        Undone(c.fields, c.H, ops, t, NO_TIES, Plain(t))
      invariant old(c.arrays) <= c.arrays && fresh(c.arrays - old(c.arrays)) && old(c.world) <= c.world
        && fresh(c.world - old(c.world))
    {
      assert ops[i..][0] == ops[i] && ops[i..][1..] == ops[i + 1..] && ops[i] in ops;
      CallKeys(c.fields, c.H, ops[i], c.T(), keys);
      FlagsRoot(c.fields, c.H, ops[i], c.T());
      ghost var s := c.S();
      var err := Perform(c, ops[i]);
      w := Retie(c.fields, c.H, ops[i], TreeNow(s), w);
    }
    TiedRoot(c.fields, c.H, c.S(), w);
    c.Rollback();
  }

  lemma TiedRoot(fs: seq<Field>, H: Hasher, s: Store, w: Ties)
    requires Tied(fs, H, s, w)
    ensures Untouched(s, [])
  {
  }

  lemma CarefulRun(fs: seq<Field>, H: Hasher, ops: seq<Op>, t: Tree)
    requires Upright(fs, H, false, t) && Callable(fs, ops)
    ensures Upright(fs, H, false, Plain(t))
    ensures Careful(fs, H, ops, t, NO_TIES) ==> Undone(fs, H, ops, t, NO_TIES, Plain(t)) == Plain(t)
  {
    Creation.PlainUpright(fs, H, t);
    RestoresExactly(fs, H, ops, t);
    assert ops[..|ops|] == ops;
  }
}
