/** A full collection and a verifier side by side: the one sends proofs with every update, the
    other follows. */
module Followers {
  import opened Fields
  import opened Trie
  import opened Mapping
  import opened Canonical
  import opened Scopes
  import opened Store
  import opened Upkeep
  import opened Collections
  import Getters
  import opened Proofs
  import opened Verifiers
  import opened Lockstep
  import opened Updates
  import opened Meaning

  /** The proofs that go with an update. */
  method SendProofs(c: Collection, keys: seq<Bytes>) returns (pfs: seq<Proof>)
    requires c.Valid() && !c.ongoing && Full(c.fields, c.H, c.T()) && forall i :: 0 <= i < |keys| ==> keys[i] != []
    ensures Issue(c.H, c.T(), keys) == Some(pfs)
  {
    hide c.S, Proper, TreeNow, Full, GetProof;
    pfs := [];
    for i := |keys| downto 0
      invariant Issue(c.H, c.T(), keys[i..]) == Some(pfs)
    {
      assert keys[i..][0] == keys[i] && keys[i..][1..] == keys[i + 1..];
      IssueComplete(c.fields, c.H, c.T(), keys[i..]);
      var pf := Getters.Prove(c, keys[i]);
      pfs := [pf.value] + pfs;
    }
    assert keys[0..] == keys;
  }

  lemma RootLabel(c: Collection)
    requires c.Valid() && !c.ongoing
    ensures c.root.lbl == c.T().d.lbl
  {
    Getters.RootLooked(c);
    Getters.LookedStill(c, c.root, []);
  }

  /** Nothing is shared between the two. */
  ghost predicate Separate(c: Collection, v: Collection)
    reads c, v
  {
    c != v && c.world !! v.world && c.arrays !! v.arrays
  }

  /** The verifier is a view of the collection, and both are ready for an update. */
  ghost predicate InTouch(c: Collection, v: Collection, keys: set<Bytes>)
    reads c, c.world, c.arrays, v, v.world, v.arrays
  {
    && c.Valid() && !c.ongoing && v.Valid() && !v.ongoing && Separate(c, v)
    && v.fields == c.fields && v.H == c.H && EffectiveScope(c) == SCOPE_ALL
    && Full(c.fields, c.H, c.T()) && View(v.T(), c.T()) && KeysWithin(c.H, c.T(), keys)
  }

  lemma Unflagged(c: Collection, v: Collection, keys: set<Bytes>)
    requires InTouch(c, v, keys)
    ensures !c.root.inconsistent && !v.root.inconsistent && View(c.T(), c.T()) && c.root in c.world
  {
    Getters.RootLooked(c);
    Getters.Looked(c, c.root, []);
    FullClean(c.fields, c.H, c.T());
    FullView(c.T());
    RootUnflagged(c, c.T());
    RootUnflagged(v, c.T());
  }

  /** One update on both: the statuses are the same, the proofs are never rejected, and unless the
      update panics the root labels are the same and the two can go on. A verifier of empty scope
      forgets all but the label once an update has been applied. */
  method UpdateBoth(c: Collection, v: Collection, u: UserUpdate, ghost keys: set<Bytes>)
      returns (sent: Status, followed: Status)
    requires InTouch(c, v, keys) && UpdateOk(c.fields, u, keys)
    modifies c, c.world, c.arrays, v, v.world, v.arrays
    ensures followed == sent && sent != Rejected
    ensures sent != Panicked ==> InTouch(c, v, keys) && v.root.lbl == c.root.lbl
    ensures sent.Applied? && old(EffectiveScope(v)) == SCOPE_NONE ==> Bare(v.T())
    ensures Separate(c, v)
    ensures fresh(c.world - old(c.world)) && fresh(c.arrays - old(c.arrays))
    ensures fresh(v.world - old(v.world)) && fresh(v.arrays - old(v.arrays))
  {
    hide Collection.S, Proper, TreeNow, View, Full, KeysWithin, ApplyUpdate, Stored, Issue, UpdateOk, ScopeOk,
      Bare, Meant, AllGood, Represents, Changed;
    Unflagged(c, v, keys);
    ghost var f := c.T();
    ValidScope(v);
    StepHolds(c.fields, c.H, EffectiveScope(v), u, v.T(), f, keys);
    UpdateKeys(c.fields, u, keys);
    var pfs := SendProofs(c, u.keys);
    followed := ApplyUserUpdate(v, u, pfs, f, keys);
    sent := ApplyUserUpdate(c, u, pfs, f, keys);
    if sent != Panicked {
      RootLabel(c);
      RootLabel(v);
    }
  }

  lemma UpdateKeys(fs: seq<Field>, u: UserUpdate, keys: set<Bytes>)
    requires UpdateOk(fs, u, keys)
    ensures forall i :: 0 <= i < |u.keys| ==> u.keys[i] != []
  {
  }

  lemma StepHolds(fs: seq<Field>, H: Hasher, s: Scope, u: UserUpdate, v: Tree, f: Tree, keys: set<Bytes>)
    requires ScopeOk(s) && View(v, f) && Full(fs, H, f) && UpdateOk(fs, u, keys) && KeysWithin(H, f, keys)
    ensures Issue(H, f, u.keys).Some?
    ensures
      var pfs := Issue(H, f, u.keys).value;
      var (a, v') := ApplyUpdate(fs, H, s, u, pfs, v);
      var (b, f') := ApplyUpdate(fs, H, SCOPE_ALL, u, pfs, f);
      && a == b && a != Rejected
      && (a != Panicked ==> v'.d.lbl == f'.d.lbl && View(v', f') && Full(fs, H, f') && KeysWithin(H, f', keys))
      && (a.Applied? && s == SCOPE_NONE ==> Bare(v'))
  {
    UpdateInStep(fs, H, s, u, v, f, keys);
  }

  /** Any number of updates, up to the first that panics. */
  method FollowAll(c: Collection, v: Collection, us: seq<UserUpdate>, ghost keys: set<Bytes>)
      returns (sent: seq<Status>, followed: seq<Status>)
    requires InTouch(c, v, keys) && forall i :: 0 <= i < |us| ==> UpdateOk(c.fields, us[i], keys)
    modifies c, c.world, c.arrays, v, v.world, v.arrays
    ensures followed == sent && Rejected !in sent
    ensures Panicked !in sent ==> |sent| == |us| && InTouch(c, v, keys) && v.root.lbl == c.root.lbl
  {
    hide InTouch;
    sent, followed := [], [];
    LabelsAgree(c, v, keys);
    for i := 0 to |us|
      invariant InTouch(c, v, keys) && v.root.lbl == c.root.lbl
      invariant |sent| == i && followed == sent && Rejected !in sent && Panicked !in sent
      invariant fresh(c.world - old(c.world)) && fresh(c.arrays - old(c.arrays))
      invariant fresh(v.world - old(v.world)) && fresh(v.arrays - old(v.arrays))
    {
      var a, b := UpdateBoth(c, v, us[i], keys);
      sent, followed := sent + [a], followed + [b];
      if a == Panicked {
        return;
      }
    }
  }

  lemma LabelsAgree(c: Collection, v: Collection, keys: set<Bytes>)
    requires InTouch(c, v, keys)
    ensures v.root.lbl == c.root.lbl
  {
    RootLabel(c);
    RootLabel(v);
  }
}
